/** The classify-then-notify dispatch shared by the three notifier loops: a
    semaphore of fixed size hands out one permit per spawned pipeline, and
    the permit comes back when the pipeline's task ends, whatever its
    outcome. Scheduling is not modelled: a pipeline finishes as a separate
    event whose outcome (the classifier's verdict) is an input. */
module Dispatch {
  import opened Wrappers
  import opened Discord

  /** What a pipeline works on: the fields the loop copies out of a mail. */
  datatype Job = Job(uid: string, subject: string, sender: string, body: string)

  /** How the classifier ended for a pipeline. */
  datatype Outcome = ClassifyFailed | Classified(category: string)

  /** The alerts a finished pipeline posts: one, with its category, when
      classification succeeded, none otherwise. Delivery failures are only
      logged, so a posted alert is counted whatever the webhook answered. */
  function AlertsOf(job: Job, outcome: Outcome, workerTag: Option<string>): (r: seq<string>)
    ensures |r| == (if outcome.Classified? then 1 else 0)
    ensures outcome.Classified? ==> r == [AlertContent(job.subject, job.sender, outcome.category, workerTag)]
  {
    match outcome
    case ClassifyFailed => []
    case Classified(category) => [AlertContent(job.subject, job.sender, category, workerTag)]
  }

  /** The alerts of a sequence of finished pipelines, in finishing order. */
  function Alerts(finished: seq<(Job, Outcome)>, workerTag: Option<string>): seq<string> {
    if finished == [] then []
    else Alerts(finished[..|finished| - 1], workerTag)
         + AlertsOf(finished[|finished| - 1].0, finished[|finished| - 1].1, workerTag)
  }

  function Jobs(finished: seq<(Job, Outcome)>): seq<Job> {
    seq(|finished|, i requires 0 <= i < |finished| => finished[i].0)
  }

  /** Every posted alert comes from a pipeline whose classification
      succeeded, and carries that pipeline's subject, sender and category
      and the worker tag. */
  lemma {:induction false} AlertsOnlyAfterClassification(finished: seq<(Job, Outcome)>, workerTag: Option<string>)
    ensures |Alerts(finished, workerTag)| <= |finished|
    ensures forall a <- Alerts(finished, workerTag) :: exists i ::
      && 0 <= i < |finished|
      && finished[i].1.Classified?
      && a == AlertContent(finished[i].0.subject, finished[i].0.sender, finished[i].1.category, workerTag)
  {
    if finished != [] {
      var prefix := finished[..|finished| - 1];
      AlertsOnlyAfterClassification(prefix, workerTag);
      forall a <- Alerts(finished, workerTag)
        ensures exists i ::
          && 0 <= i < |finished|
          && finished[i].1.Classified?
          && a == AlertContent(finished[i].0.subject, finished[i].0.sender, finished[i].1.category, workerTag)
      {
        if a in Alerts(prefix, workerTag) {
          var i :| 0 <= i < |prefix| && prefix[i].1.Classified? &&
            a == AlertContent(prefix[i].0.subject, prefix[i].0.sender, prefix[i].1.category, workerTag);
          assert finished[i] == prefix[i];
        } else {
          var last := |finished| - 1;
          assert a in AlertsOf(finished[last].0, finished[last].1, workerTag);
        }
      }
    }
  }

  /** A pipeline that could not classify posts nothing: appending it leaves
      the alerts as they were. */
  lemma FailedPipelinePostsNothing(finished: seq<(Job, Outcome)>, job: Job, workerTag: Option<string>)
    ensures Alerts(finished + [(job, ClassifyFailed)], workerTag) == Alerts(finished, workerTag)
  {
    assert (finished + [(job, ClassifyFailed)])[..|finished|] == finished;
  }

  class Dispatcher {
    /** The semaphore size (CONCURRENCY). */
    const size: nat
    /** The worker id the alerts carry, if the variant sends one. */
    const workerTag: Option<string>
    var permits: nat
    /** The pipelines holding a permit, in spawning order. */
    var running: seq<Job>
    ghost var spawned: seq<Job>
    ghost var finished: seq<(Job, Outcome)>
    /** The alert texts posted to the webhook. */
    var posted: seq<string>

    ghost predicate Valid()
      reads this
    {
      && permits + |running| == size
      && multiset(spawned) == multiset(running) + multiset(Jobs(finished))
      && posted == Alerts(finished, workerTag)
    }

    constructor (size: nat, workerTag: Option<string>)
      ensures Valid()
      ensures this.size == size && this.workerTag == workerTag
      ensures permits == size && running == [] && spawned == [] && finished == [] && posted == []
    {
      this.size := size;
      this.workerTag := workerTag;
      permits := size;
      running := [];
      spawned := [];
      finished := [];
      posted := [];
    }

    /** Spawning a pipeline consumes the permit it was given. */
    method Spawn(job: Job)
      requires Valid() && permits > 0
      modifies this
      ensures Valid()
      ensures permits == old(permits) - 1
      ensures running == old(running) + [job] && spawned == old(spawned) + [job]
      ensures finished == old(finished) && posted == old(posted)
    {
      permits := permits - 1;
      running := running + [job];
      spawned := spawned + [job];
    }

    /** One owned mail: wait for a permit, then spawn its pipeline. Without
        a permit and with nothing running the wait never ends, which happens
        only when the semaphore has size 0. */
    method Launch(job: Job) returns (ok: bool)
      requires Valid()
      modifies this
      ensures Valid()
      ensures ok <==> old(permits) > 0 || old(running) != []
      ensures !ok ==> size == 0 && spawned == old(spawned)
      ensures ok ==> spawned == old(spawned) + [job]
    {
      ok := Acquire();
      if ok {
        Spawn(job);
      }
    }

    /** The task of running pipeline `k` ends with `outcome`: it posts its
        alert, if any, and drops its permit on every outcome. */
    method Finish(k: nat, outcome: Outcome)
      requires Valid() && k < |running|
      modifies this
      ensures Valid()
      ensures permits == old(permits) + 1
      ensures running == old(running[..k] + running[k + 1..])
      ensures spawned == old(spawned)
      ensures finished == old(finished) + [(old(running[k]), outcome)]
      ensures posted == old(posted) + AlertsOf(old(running[k]), outcome, workerTag)
    {
      var job := running[k];
      assert running == running[..k] + [job] + running[k + 1..];
      running := running[..k] + running[k + 1..];
      permits := permits + 1;
      assert (finished + [(job, outcome)])[..|finished|] == finished;
      assert Jobs(finished + [(job, outcome)]) == Jobs(finished) + [job];
      finished := finished + [(job, outcome)];
      posted := posted + AlertsOf(job, outcome, workerTag);
    }

    /** `acquire_owned().await`: with a free permit it returns at once;
        otherwise it waits until some running pipeline ends (which one, and
        how, is up to the scheduler and the classifier). With no permit and
        nothing running it waits forever, reported as `false`. */
    method Acquire() returns (ok: bool)
      requires Valid()
      modifies this
      ensures Valid()
      ensures ok <==> old(permits) > 0 || old(running) != []
      ensures ok ==> permits > 0
      ensures spawned == old(spawned)
      ensures old(permits) > 0 || !ok ==>
        permits == old(permits) && running == old(running) && finished == old(finished) && posted == old(posted)
      ensures old(permits) == 0 && ok ==>
        exists k, outcome :: 0 <= k < |old(running)| &&
          running == old(running[..k] + running[k + 1..]) &&
          finished == old(finished) + [(old(running[k]), outcome)] &&
          posted == old(posted) + AlertsOf(old(running[k]), outcome, workerTag)
    {
      if permits > 0 {
        ok := true;
      } else if running == [] {
        ok := false;
      } else {
        var k :| 0 <= k < |running|;
        var outcome: Outcome :| true;
        ghost var r0, f0, p0 := running, finished, posted;
        Finish(k, outcome);
        assert running == r0[..k] + r0[k + 1..];
        ok := true;
      }
    }
  }

  /** While the dispatcher is consistent, the pipelines in flight never
      exceed the semaphore size, and every running pipeline was spawned. */
  lemma InFlightBound(size: nat, permits: nat, running: seq<Job>, spawned: seq<Job>, finished: seq<(Job, Outcome)>)
    requires permits + |running| == size
    requires multiset(spawned) == multiset(running) + multiset(Jobs(finished))
    ensures |running| <= size
    ensures forall j <- running :: j in spawned
    ensures |spawned| == |running| + |finished|
  {
    forall j <- running
      ensures j in spawned
    {
      assert j in multiset(running);
      assert j in multiset(spawned);
    }
    assert |multiset(spawned)| == |multiset(running)| + |multiset(Jobs(finished))|;
  }
}
