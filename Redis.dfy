/** The Redis server the gateway's broker and the worker share: the job list
    `message`, the lists `results:<id>`, and the messages published on channels. */
module Redis {
  import opened Jobs

  /** One `publish(channel, JSON.stringify(result))`. */
  datatype Publication = Publication(channel: string, result: JobResult)

  class Store {
    /** The list `message`, left end first. */
    var queue: seq<Job>
    /** The lists `results:<id>`, by name, left end first. */
    var resultLists: map<string, seq<JobResult>>
    /** Every message published, in order. */
    var published: seq<Publication>

    constructor ()
      ensures queue == [] && resultLists == map[] && published == []
    {
      queue, resultLists, published := [], map[], [];
    }

    /** `lPush("message", job)`: the job goes in at the left end. */
    method PushJob(job: Job)
      modifies this
      ensures queue == [job] + old(queue)
      ensures resultLists == old(resultLists) && published == old(published)
    {
      queue := [job] + queue;
    }

    /** `brPop("message", 0)`: the job at the right end, or nothing from an empty list. */
    method PopJob() returns (job: Option<Job>)
      modifies this
      ensures old(queue) == [] ==> job.None? && queue == []
      ensures old(queue) != [] ==> job == Some(Last(old(queue))) && queue == old(queue)[..|old(queue)| - 1]
      ensures resultLists == old(resultLists) && published == old(published)
    {
      if queue == [] {
        job := None;
      } else {
        job := Some(queue[|queue| - 1]);
        queue := queue[..|queue| - 1];
      }
    }

    /** `publish(channel, result)`. */
    method Publish(channel: string, result: JobResult)
      modifies this
      ensures published == old(published) + [Publication(channel, result)]
      ensures queue == old(queue) && resultLists == old(resultLists)
    {
      published := published + [Publication(channel, result)];
    }

    /** `lPush(name, result)` on a result list. */
    method PushResult(name: string, result: JobResult)
      modifies this
      ensures resultLists == old(resultLists)[name := [result] + (if name in old(resultLists) then old(resultLists)[name] else [])]
      ensures queue == old(queue) && published == old(published)
    {
      var prev := if name in resultLists then resultLists[name] else [];
      resultLists := resultLists[name := [result] + prev];
    }
  }

  function Last<T>(q: seq<T>): T
    requires q != []
  {
    q[|q| - 1]
  }

  /** The list after `lPush` of each of `jobs`, in order. */
  function PushAll(q: seq<Job>, jobs: seq<Job>): (r: seq<Job>)
    ensures |r| == |q| + |jobs|
    decreases |jobs|
  {
    if jobs == [] then q else PushAll([jobs[0]] + q, jobs[1..])
  }

  /** The jobs that repeated `brPop` hands out until the list is empty, in order. */
  function Drain(q: seq<Job>): seq<Job>
    decreases |q|
  {
    if q == [] then [] else [Last(q)] + Drain(q[..|q| - 1])
  }

  /** Pushing on the left and popping on the right is first-in, first-out: the jobs
      already waiting come out first, then the new ones in the order they were pushed. */
  lemma {:induction false} FirstInFirstOut(q: seq<Job>, jobs: seq<Job>)
    ensures Drain(PushAll(q, jobs)) == Drain(q) + jobs
    decreases |jobs|
  {
    if jobs != [] {
      FirstInFirstOut([jobs[0]] + q, jobs[1..]);
      DrainPushed(q, jobs[0]);
      assert jobs == [jobs[0]] + jobs[1..];
    }
  }

  /** A job pushed on the left comes out after every job already waiting. */
  lemma {:induction false} DrainPushed(q: seq<Job>, job: Job)
    ensures Drain([job] + q) == Drain(q) + [job]
    decreases |q|
  {
    if q != [] {
      var n := |q| - 1;
      assert ([job] + q)[..n + 1] == [job] + q[..n];
      DrainPushed(q[..n], job);
    }
  }
}
