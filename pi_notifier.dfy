/** The notifier loop of `pi_email/master/src/notifier.rs`. Each poll cycle
    connects, selects INBOX, reads the unseen mail with the newer reader,
    and for every mail this worker owns first stores \Seen (a refused store
    is only logged), then waits for a permit and spawns classify-then-notify
    with the worker id in the alert. Every failure before the mail loop is
    logged and followed by the 10 s sleep; the loop never ends by itself.
    Connecting and logging in are an input per cycle; LOGOUT changes no
    flags and is not modelled. */
module PiNotifier {
  import opened Wrappers
  import opened Text
  import opened Mime
  import opened Imap
  import PiGmail
  import opened Shard
  import opened Dispatch
  import opened NotifierConfig
  import opened Poll

  /** What the server does in one cycle: whether the connection and login
      succeed, the notifier's own SELECT, and the reader's SELECT and SEARCH. */
  datatype Net = Net(connectOk: bool, selectOk: bool, reselectOk: bool, searchOk: bool)

  /** The observable order of the mail loop's effects on owned mail. */
  datatype Event = Stored(uid: string) | Spawned(uid: string)

  /** The effect of `STORE <idText> +FLAGS (\Seen)` on the flags. */
  function StoreEffect(m: map<Uid, Message>, idText: string): (r: map<Uid, Message>)
    ensures r.Keys == m.Keys
  {
    match ParseDigits(idText)
    case None => m
    case Some(u) => if u in m && m[u].storeRefused then m else MarkSeen(m, u)
  }

  /** The flags after storing \Seen for each id text in turn. */
  function StoreAll(m: map<Uid, Message>, ids: seq<string>): (r: map<Uid, Message>)
    ensures r.Keys == m.Keys
  {
    if ids == [] then m else StoreEffect(StoreAll(m, ids[..|ids| - 1]), ids[|ids| - 1])
  }

  function UidsOf(es: seq<Email>): (r: seq<string>)
    ensures |r| == |es| && forall i | 0 <= i < |es| :: r[i] == es[i].uid
  {
    seq(|es|, i requires 0 <= i < |es| => es[i].uid)
  }

  /** Storing \Seen for a list of ids sets exactly the flags of the listed
      messages whose store is not refused, and changes nothing else. */
  lemma {:induction false} StoreAllMarks(m: map<Uid, Message>, ids: seq<string>, u: Uid)
    requires u in m
    ensures StoreAll(m, ids)[u] == m[u] || StoreAll(m, ids)[u] == m[u].(seen := true)
    ensures StoreAll(m, ids)[u].seen <==>
      m[u].seen || (!m[u].storeRefused && exists id <- ids :: ParseDigits(id) == Some(u))
  {
    if ids != [] {
      var init := ids[..|ids| - 1];
      StoreAllMarks(m, init, u);
      var last := ids[|ids| - 1];
      assert forall id <- ids :: id in init || id == last;
      assert StoreAll(m, init)[u].storeRefused == m[u].storeRefused;
    }
  }

  /** The effects on owned mail, in order: each is stored, then spawned. */
  function PiEvents(es: seq<Email>): (r: seq<Event>)
    ensures |r| == 2 * |es|
  {
    if es == [] then [] else PiEvents(es[..|es| - 1]) + [Stored(es[|es| - 1].uid), Spawned(es[|es| - 1].uid)]
  }

  /** Every pipeline is spawned right after its message was flagged: a later
      failure to classify or deliver leaves the message seen. */
  lemma {:induction false} StoredBeforeSpawned(es: seq<Email>, i: nat)
    requires i < |PiEvents(es)| && PiEvents(es)[i].Spawned?
    ensures i >= 1 && PiEvents(es)[i - 1] == Stored(PiEvents(es)[i].uid)
  {
    var init := es[..|es| - 1];
    if i < |PiEvents(init)| {
      StoredBeforeSpawned(init, i);
    }
  }

  /** After a cycle, a message that no owned mail names and that the
      fallback did not read has the flags it had: the notifier never flags
      another worker's mail (only the reader's fallback does). */
  lemma ForeignMailUntouched(m: map<Uid, Message>, owned: seq<Email>, u: Uid)
    requires u in m && !PiGmail.FallbackMarks(m, u)
    requires forall e <- owned :: ParseDigits(e.uid) != Some(u)
    ensures StoreAll(PiGmail.FlagsAfterReading(m, UnseenOf(m)), UidsOf(owned))[u] == m[u]
  {
    var m1 := PiGmail.FlagsAfterReading(m, UnseenOf(m));
    StoreAllMarks(m1, UidsOf(owned), u);
    assert m1[u] == m[u];
    forall id <- UidsOf(owned)
      ensures ParseDigits(id) != Some(u)
    {
      var k :| 0 <= k < |owned| && UidsOf(owned)[k] == id;
      assert owned[k] in owned;
    }
  }

  /** After a cycle, every owned mail's message is flagged \Seen unless the
      server refused the store. */
  lemma OwnedMailSeen(m: map<Uid, Message>, owned: seq<Email>, e: Email, u: Uid)
    requires e in owned && ParseDigits(e.uid) == Some(u) && u in m && !m[u].storeRefused
    ensures StoreAll(m, UidsOf(owned))[u].seen
  {
    StoreAllMarks(m, UidsOf(owned), u);
    var k :| 0 <= k < |owned| && owned[k] == e;
    assert UidsOf(owned)[k] == e.uid;
  }

  /** The three records of the mail loop grow by one owned mail at a time. */
  lemma OwnedStep(m: map<Uid, Message>, done: seq<Email>, em: Email)
    ensures JobsOf(done + [em]) == JobsOf(done) + [JobOf(em)]
    ensures PiEvents(done + [em]) == PiEvents(done) + [Stored(em.uid), Spawned(em.uid)]
    ensures StoreAll(m, UidsOf(done + [em])) == StoreEffect(StoreAll(m, UidsOf(done)), em.uid)
  {
    assert (done + [em])[..|done|] == done;
    assert UidsOf(done + [em]) == UidsOf(done) + [em.uid];
    assert (UidsOf(done) + [em.uid])[..|done|] == UidsOf(done);
  }

  class Notifier {
    const settings: Settings
    const hash: string -> U64
    const htmlText: string -> string
    const mailbox: Mailbox
    const dispatcher: Dispatcher
    ghost var events: seq<Event>
    /** Seconds slept between cycles. */
    ghost var slept: nat

    ghost predicate Valid()
      reads this, dispatcher
    {
      && dispatcher.Valid()
      && dispatcher.size == settings.concurrency
      && dispatcher.workerTag == Some(Decimal(settings.workerId))
    }

    constructor (settings: Settings, hash: string -> U64, htmlText: string -> string, mailbox: Mailbox)
      ensures Valid()
      ensures this.settings == settings && this.hash == hash && this.htmlText == htmlText
      ensures this.mailbox == mailbox && fresh(dispatcher)
      ensures dispatcher.running == [] && dispatcher.spawned == [] && dispatcher.posted == []
      ensures events == [] && slept == 0
    {
      this.settings := settings;
      this.hash := hash;
      this.htmlText := htmlText;
      this.mailbox := mailbox;
      dispatcher := new Dispatcher(settings.concurrency, Some(Decimal(settings.workerId)));
      events := [];
      slept := 0;
    }

    /** This worker's share of a fetched list. */
    function MyMail(mails: seq<Email>): seq<Email>
      requires settings.totalWorkers >= 1
      reads this
    {
      Mine(mails, hash, settings.totalWorkers, settings.workerId)
    }

    /** One pass of the loop. A failure to connect, select or read leaves
        the flags, the pipelines and the alerts as they were and sleeps.
        Otherwise `mails` is what the reader returned; each owned mail is
        stored \Seen and then spawned, in order, and the unowned mail is
        left alone. */
    method PollCycle(net: Net) returns (end: CycleEnd, mails: seq<Email>)
      requires Valid()
      modifies this, mailbox, dispatcher
      ensures Valid()
      ensures !(net.connectOk && net.selectOk && net.reselectOk && net.searchOk) ==>
        && end == Completed && mails == []
        && mailbox.messages == old(mailbox.messages)
        && dispatcher.spawned == old(dispatcher.spawned) && dispatcher.posted == old(dispatcher.posted)
        && events == old(events)
      ensures end == Completed <==> slept == old(slept) + PollIntervalSecs
      ensures end != Completed ==> slept == old(slept)
      ensures end == Panicked ==> settings.totalWorkers == 0
      ensures end == Blocked ==> settings.concurrency == 0
      ensures settings.totalWorkers >= 1 && settings.concurrency >= 1 ==> end == Completed
      ensures forall e <- mails :: exists u :: u in UnseenOf(old(mailbox.messages)) && ParseDigits(e.uid) == Some(u)
      ensures forall e <- mails ::
        exists u :: u in UnseenOf(old(mailbox.messages)) && PiGmail.PiFetchOne(old(mailbox.messages), u, htmlText) == Some(e)
      ensures net.connectOk && net.selectOk && net.reselectOk && net.searchOk ==>
        forall u :: u in UnseenOf(old(mailbox.messages)) && PiGmail.PiFetchOne(old(mailbox.messages), u, htmlText).Some? ==>
          PiGmail.PiFetchOne(old(mailbox.messages), u, htmlText).value in mails
      ensures
        net.connectOk && net.selectOk && net.reselectOk && net.searchOk &&
        end == Completed && settings.totalWorkers >= 1 ==>
        Records(old(dispatcher.spawned), old(events),
                PiGmail.FlagsAfterReading(old(mailbox.messages), UnseenOf(old(mailbox.messages))),
                MyMail(mails))
    {
      mails := [];
      if !net.connectOk || !net.selectOk {
        slept := slept + PollIntervalSecs;
        return Completed, [];
      }
      var fetched := PiGmail.FetchUnseenEmails(mailbox, net.reselectOk, net.searchOk, htmlText);
      if fetched.Err? {
        slept := slept + PollIntervalSecs;
        return Completed, [];
      }
      mails := fetched.value;
      if settings.totalWorkers == 0 {
        if mails == [] {
          slept := slept + PollIntervalSecs;
          return Completed, mails;
        }
        return Panicked, mails;
      }
      end := DispatchMail(mails);
      if end == Completed {
        slept := slept + PollIntervalSecs;
      }
    }

    /** The mail loop: for each mail this worker owns, in order, STORE \Seen
        (its result is only logged), wait for a permit, spawn the pipeline. */
    method DispatchMail(mails: seq<Email>) returns (end: CycleEnd)
      requires Valid() && settings.totalWorkers >= 1
      modifies this`events, mailbox, dispatcher
      ensures Valid()
      ensures end != Panicked
      ensures end == Blocked ==> settings.concurrency == 0
      ensures settings.concurrency >= 1 ==> end == Completed
      ensures end == Completed ==>
        Records(old(dispatcher.spawned), old(events), old(mailbox.messages), MyMail(mails))
    {
      var total, worker := settings.totalWorkers, settings.workerId;
      ghost var s0, e0, m0 := dispatcher.spawned, events, mailbox.messages;
      ghost var done: seq<Email> := [];
      assert Records(s0, e0, m0, done);
      var i := 0;
      while i < |mails|
        invariant 0 <= i <= |mails|
        invariant Valid()
        invariant done == Mine(mails[..i], hash, total, worker)
        invariant Records(s0, e0, m0, done)
      {
        MineSnoc(mails, i, hash, total, worker);
        var em := mails[i];
        if OwnsMail(mails, i, hash, total, worker) {
          var ok := HandleOwned(em, s0, e0, m0, done);
          if !ok {
            return Blocked;
          }
          done := done + [em];
        }
        i := i + 1;
      }
      assert mails[..i] == mails;
      end := Completed;
    }

    /** The pipelines spawned, the events and the flags after handling the
        owned mail `done`, from `s0`, `e0` and `m0`. */
    ghost predicate Records(s0: seq<Job>, e0: seq<Event>, m0: map<Uid, Message>, done: seq<Email>)
      reads this, dispatcher, mailbox
    {
      && dispatcher.spawned == s0 + JobsOf(done)
      && events == e0 + PiEvents(done)
      && mailbox.messages == StoreAll(m0, UidsOf(done))
    }

    /** One owned mail: STORE \Seen first, then wait for a permit and spawn.
        Waiting fails (forever) only with a semaphore of size 0. */
    method HandleOwned(em: Email, ghost s0: seq<Job>, ghost e0: seq<Event>,
                       ghost m0: map<Uid, Message>, ghost done: seq<Email>) returns (ok: bool)
      requires Valid() && Records(s0, e0, m0, done)
      modifies this`events, mailbox, dispatcher
      ensures Valid()
      ensures ok <==> settings.concurrency >= 1
      ensures mailbox.messages == StoreEffect(old(mailbox.messages), em.uid)
      ensures ok ==>
        && dispatcher.spawned == old(dispatcher.spawned) + [JobOf(em)]
        && events == old(events) + [Stored(em.uid), Spawned(em.uid)]
        && Records(s0, e0, m0, done + [em])
    {
      OwnedStep(m0, done, em);
      var _ := mailbox.StoreSeen(em.uid);
      events := events + [Stored(em.uid)];
      ok := dispatcher.Launch(JobOf(em));
      if !ok {
        return;
      }
      events := events + [Spawned(em.uid)];
      AppendAssoc(e0, PiEvents(done), [Stored(em.uid), Spawned(em.uid)]);
      AppendAssoc(s0, JobsOf(done), [JobOf(em)]);
    }

    /** The endless loop, for as many cycles as `nets` describes: every
        failure is followed by the sleep and the next cycle; only a panic or
        a blocked semaphore stops it. */
    method Run(nets: seq<Net>) returns (end: CycleEnd, cycles: nat)
      requires Valid()
      modifies this, mailbox, dispatcher
      ensures Valid()
      ensures cycles <= |nets| && (end == Completed ==> cycles == |nets|)
      ensures slept == old(slept) + cycles * PollIntervalSecs
      ensures settings.totalWorkers >= 1 && settings.concurrency >= 1 ==> end == Completed
      ensures (forall n <- nets :: !n.connectOk) ==>
        mailbox.messages == old(mailbox.messages) && dispatcher.spawned == old(dispatcher.spawned)
    {
      end, cycles := Completed, 0;
      while cycles < |nets|
        invariant cycles <= |nets| && end == Completed
        invariant Valid()
        invariant slept == old(slept) + cycles * PollIntervalSecs
        invariant (forall n <- nets :: !n.connectOk) ==>
          mailbox.messages == old(mailbox.messages) && dispatcher.spawned == old(dispatcher.spawned)
      {
        var mails;
        end, mails := PollCycle(nets[cycles]);
        if end != Completed {
          return;
        }
        cycles := cycles + 1;
      }
    }
  }
}
