/** What the three notifier loops share: turning a fetched mail into a
    pipeline job, picking this worker's mail, and the dispatch loop of the
    two variants that store no flags of their own. One pass of the outer
    loop is a poll cycle; it ends in a 10 s sleep unless the process dies
    on the way. */
module Poll {
  import opened Wrappers
  import opened Text
  import opened Mime
  import opened Shard
  import opened Dispatch

  const PollIntervalSecs := 10

  /** How a poll cycle ends: it completes (and sleeps), the remainder by a
      zero TOTAL_WORKERS panics, or a semaphore of size 0 blocks forever. */
  datatype CycleEnd = Completed | Panicked | Blocked

  function JobOf(e: Email): Job {
    Job(e.uid, e.subject, e.from, e.body)
  }

  function JobsOf(es: seq<Email>): (r: seq<Job>)
    ensures |r| == |es| && forall i | 0 <= i < |es| :: r[i] == JobOf(es[i])
  {
    seq(|es|, i requires 0 <= i < |es| => JobOf(es[i]))
  }

  /** The mail this worker keeps: its shard, `hash(uid) % total`, equals the worker id. */
  function Mine(mails: seq<Email>, hash: string -> nat, total: nat, worker: nat): seq<Email>
    requires total >= 1
  {
    Owned(mails, (e: Email) => hash(e.uid), total, worker)
  }

  /** Whether this worker owns the `i`-th mail. */
  predicate OwnsMail(mails: seq<Email>, i: nat, hash: string -> nat, total: nat, worker: nat)
    requires total >= 1 && i < |mails|
  {
    ShardOf(hash(mails[i].uid), total) == worker
  }

  lemma MineSnoc(mails: seq<Email>, i: nat, hash: string -> nat, total: nat, worker: nat)
    requires total >= 1 && i < |mails|
    ensures Mine(mails[..i + 1], hash, total, worker)
         == Mine(mails[..i], hash, total, worker)
            + (if OwnsMail(mails, i, hash, total, worker) then [mails[i]] else [])
  {
    assert mails[..i + 1] == mails[..i] + [mails[i]];
    OwnedSnoc(mails[..i], mails[i], (e: Email) => hash(e.uid), total, worker);
  }

  /** The jobs of the mail kept so far grow by at most the `i`-th mail's job. */
  lemma JobsOfMineSnoc(mails: seq<Email>, i: nat, hash: string -> nat, total: nat, worker: nat)
    requires total >= 1 && i < |mails|
    ensures JobsOf(Mine(mails[..i + 1], hash, total, worker))
         == JobsOf(Mine(mails[..i], hash, total, worker))
            + (if OwnsMail(mails, i, hash, total, worker) then [JobOf(mails[i])] else [])
  {
    MineSnoc(mails, i, hash, total, worker);
  }

  /** One mail of the loop: a mail owned by `worker` waits for a permit
      and is spawned, any other is skipped. Waiting fails only with a
      semaphore of size 0. */
  method StepOwned(d: Dispatcher, mails: seq<Email>, i: nat, hash: string -> nat, total: nat, worker: nat)
    returns (ok: bool)
    requires total >= 1 && i < |mails| && d.Valid()
    modifies d
    ensures d.Valid()
    ensures !ok ==> d.size == 0
    ensures ok ==>
      d.spawned == old(d.spawned) + (if OwnsMail(mails, i, hash, total, worker) then [JobOf(mails[i])] else [])
  {
    var em := mails[i];
    if !OwnsMail(mails, i, hash, total, worker) {
      return true;
    }
    ok := d.Launch(JobOf(em));
  }

  /** The mail loop without flag stores (`master/src/notifier.rs` and the
      postman server): each mail owned by `worker` waits for a permit and
      is spawned; the others are skipped. Computing a shard with a zero
      `total` panics at the first mail, and a semaphore of size 0 blocks at
      the first owned one. */
  method DispatchOwned(d: Dispatcher, mails: seq<Email>, hash: string -> nat, total: nat, worker: nat)
    returns (end: CycleEnd)
    requires d.Valid()
    modifies d
    ensures d.Valid()
    ensures end == Panicked <==> total == 0 && mails != []
    ensures end == Blocked ==> d.size == 0
    ensures total >= 1 && d.size >= 1 ==> end == Completed
    ensures total == 0 ==> d.spawned == old(d.spawned) && d.posted == old(d.posted)
    ensures end == Completed && total >= 1 ==>
      d.spawned == old(d.spawned) + JobsOf(Mine(mails, hash, total, worker))
  {
    if total == 0 {
      return if mails == [] then Completed else Panicked;
    }
    ghost var s0 := d.spawned;
    var i := 0;
    while i < |mails|
      invariant 0 <= i <= |mails|
      invariant d.Valid()
      invariant d.spawned == s0 + JobsOf(Mine(mails[..i], hash, total, worker))
    {
      ghost var kept := JobsOf(Mine(mails[..i], hash, total, worker));
      JobsOfMineSnoc(mails, i, hash, total, worker);
      var ok := StepOwned(d, mails, i, hash, total, worker);
      if !ok {
        return Blocked;
      }
      AppendAssoc(s0, kept, if OwnsMail(mails, i, hash, total, worker) then [JobOf(mails[i])] else []);
      i := i + 1;
    }
    assert mails[..i] == mails;
    end := Completed;
  }
}
