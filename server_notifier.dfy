/** The loop of `pi_postman_wasm/master/src/bin/server.rs`. Each poll cycle
    connects; when reading the unseen mail succeeds, every mail this worker
    owns by `fxhash::hash32` waits for a permit and is spawned, and when it
    fails the error is dropped without a log line. A failed connection is
    logged. Every cycle ends with the 10 s sleep. The reader this binary
    uses (`pi_postman_wasm/common/src/gmail.rs`) is not part of this model,
    so what it returns is an input per cycle, and its flag changes are not
    modelled. */
module ServerNotifier {
  import opened Wrappers
  import opened Mime
  import opened Shard
  import opened Dispatch
  import opened NotifierConfig
  import opened Poll

  /** Whether the connection succeeds, and what the reader returns (`None`: an error). */
  datatype Net = Net(connectOk: bool, fetched: Option<seq<Email>>)

  class Server {
    const settings: Settings
    const hash32: string -> U32
    const dispatcher: Dispatcher
    /** Seconds slept between cycles. */
    ghost var slept: nat

    ghost predicate Valid()
      reads this, dispatcher
    {
      && dispatcher.Valid()
      && dispatcher.size == settings.concurrency
      && dispatcher.workerTag == None
    }

    constructor (settings: Settings, hash32: string -> U32)
      ensures Valid()
      ensures this.settings == settings && this.hash32 == hash32 && fresh(dispatcher)
      ensures dispatcher.running == [] && dispatcher.spawned == [] && dispatcher.posted == []
      ensures slept == 0
    {
      this.settings := settings;
      this.hash32 := hash32;
      dispatcher := new Dispatcher(settings.concurrency, None);
      slept := 0;
    }

    /** One pass of the loop: a failed connection or a failed read dispatches
        nothing and sleeps; otherwise this worker's share is spawned in order. */
    method PollCycle(net: Net) returns (end: CycleEnd)
      requires Valid()
      modifies this, dispatcher
      ensures Valid()
      ensures !net.connectOk || net.fetched.None? ==>
        && end == Completed
        && dispatcher.spawned == old(dispatcher.spawned) && dispatcher.posted == old(dispatcher.posted)
      ensures end == Completed <==> slept == old(slept) + PollIntervalSecs
      ensures end != Completed ==> slept == old(slept)
      ensures end == Panicked ==> settings.totalWorkers == 0
      ensures end == Blocked ==> settings.concurrency == 0
      ensures settings.totalWorkers >= 1 && settings.concurrency >= 1 ==> end == Completed
      ensures net.connectOk && net.fetched.Some? && end == Completed && settings.totalWorkers >= 1 ==>
        dispatcher.spawned
          == old(dispatcher.spawned) + JobsOf(Mine(net.fetched.value, hash32, settings.totalWorkers, settings.workerId))
    {
      if net.connectOk && net.fetched.Some? {
        end := DispatchOwned(dispatcher, net.fetched.value, hash32, settings.totalWorkers, settings.workerId);
        if end != Completed {
          return;
        }
      }
      end := Completed;
      slept := slept + PollIntervalSecs;
    }
  }
}
