/** The notifier loop of `master/src/notifier.rs`. Each poll cycle connects
    and reads the unseen mail with the older reader in one step; any error
    of either is logged and followed by the 10 s sleep. Every mail this
    worker owns waits for a permit and is spawned; the loop stores no flags
    of its own, and its alerts carry no worker id. Every completed cycle
    ends with the same sleep. The alert text is that of the postman's
    webhook module (the `common/src/discord.rs` this binary links is not
    part of this model; its call takes no worker id). */
module MasterNotifier {
  import opened Wrappers
  import opened Text
  import opened Mime
  import opened Imap
  import CommonGmail
  import opened Shard
  import opened Dispatch
  import opened NotifierConfig
  import opened Poll

  /** Whether connecting and logging in succeed, and the reader's SELECT and SEARCH. */
  datatype Net = Net(connectOk: bool, selectOk: bool, searchOk: bool)

  /** Reading marks other workers' mail: every unseen message whose body the
      reader fetched is \Seen afterwards, whoever owns it, so the next
      SEARCH UNSEEN of any worker no longer returns it. */
  lemma ReadingMarksForeignMail(m: map<Uid, Message>, u: Uid)
    requires u in UnseenOf(m) && CommonGmail.ReadMarks(m, u)
    ensures CommonGmail.FlagsAfterReading(m, UnseenOf(m))[u].seen
    ensures u !in UnseenOf(CommonGmail.FlagsAfterReading(m, UnseenOf(m)))
  {
  }

  class Notifier {
    const settings: Settings
    const hash: string -> U64
    const htmlText: string -> string
    const mailbox: Mailbox
    const dispatcher: Dispatcher
    /** Seconds slept between cycles. */
    ghost var slept: nat

    ghost predicate Valid()
      reads this, dispatcher
    {
      && dispatcher.Valid()
      && dispatcher.size == settings.concurrency
      && dispatcher.workerTag == None
    }

    constructor (settings: Settings, hash: string -> U64, htmlText: string -> string, mailbox: Mailbox)
      ensures Valid()
      ensures this.settings == settings && this.hash == hash && this.htmlText == htmlText
      ensures this.mailbox == mailbox && fresh(dispatcher)
      ensures dispatcher.running == [] && dispatcher.spawned == [] && dispatcher.posted == []
      ensures slept == 0
    {
      this.settings := settings;
      this.hash := hash;
      this.htmlText := htmlText;
      this.mailbox := mailbox;
      dispatcher := new Dispatcher(settings.concurrency, None);
      slept := 0;
    }

    /** One pass of the loop. A failed connection changes nothing; a failed
        read dispatches nothing (the flags it set stay set). Otherwise the
        flags are those the reader left, and this worker's share of the
        mail is spawned in order. `fetched` is the combined outcome of
        connecting and reading. */
    method PollCycle(net: Net) returns (end: CycleEnd, fetched: Result<seq<Email>>)
      requires Valid()
      modifies this, mailbox, dispatcher
      ensures Valid()
      ensures !net.connectOk ==> fetched.Err? && mailbox.messages == old(mailbox.messages)
      ensures !(net.selectOk && net.searchOk) ==> fetched.Err? && mailbox.messages == old(mailbox.messages)
      ensures net.connectOk && net.selectOk && net.searchOk ==>
        (fetched.Err? <==> exists u :: u in UnseenOf(old(mailbox.messages)) && WholeOf(old(mailbox.messages), u).Refused?)
      ensures fetched.Err? ==>
        end == Completed && dispatcher.spawned == old(dispatcher.spawned) && dispatcher.posted == old(dispatcher.posted)
      ensures mailbox.messages.Keys == old(mailbox.messages).Keys
      ensures forall u :: u in mailbox.messages ==>
        mailbox.messages[u] == old(mailbox.messages)[u]
        || (u in UnseenOf(old(mailbox.messages)) && CommonGmail.ReadMarks(old(mailbox.messages), u)
            && mailbox.messages[u] == old(mailbox.messages)[u].(seen := true))
      ensures fetched.Ok? ==>
        mailbox.messages == CommonGmail.FlagsAfterReading(old(mailbox.messages), UnseenOf(old(mailbox.messages)))
      ensures fetched.Ok? ==> forall e <- fetched.value ::
        exists u :: u in UnseenOf(old(mailbox.messages)) && ParseDigits(e.uid) == Some(u)
      ensures fetched.Ok? ==> forall e <- fetched.value ::
        exists u :: u in UnseenOf(old(mailbox.messages)) && EmailOfReply(WholeOf(old(mailbox.messages), u), u, htmlText) == Some(e)
      ensures fetched.Ok? ==> forall u ::
        u in UnseenOf(old(mailbox.messages)) && EmailOfReply(WholeOf(old(mailbox.messages), u), u, htmlText).Some? ==>
          EmailOfReply(WholeOf(old(mailbox.messages), u), u, htmlText).value in fetched.value
      ensures end == Completed <==> slept == old(slept) + PollIntervalSecs
      ensures end != Completed ==> slept == old(slept)
      ensures end == Panicked ==> settings.totalWorkers == 0
      ensures end == Blocked ==> settings.concurrency == 0
      ensures settings.totalWorkers >= 1 && settings.concurrency >= 1 ==> end == Completed
      ensures fetched.Ok? && end == Completed && settings.totalWorkers >= 1 ==>
        dispatcher.spawned
          == old(dispatcher.spawned) + JobsOf(Mine(fetched.value, hash, settings.totalWorkers, settings.workerId))
    {
      if !net.connectOk {
        slept := slept + PollIntervalSecs;
        return Completed, Err("connect failed");
      }
      fetched := CommonGmail.FetchUnseenEmails(mailbox, net.selectOk, net.searchOk, htmlText);
      if fetched.Err? {
        slept := slept + PollIntervalSecs;
        return Completed, fetched;
      }
      var mails := fetched.value;
      forall e <- mails
        ensures exists u :: u in UnseenOf(old(mailbox.messages)) && ParseDigits(e.uid) == Some(u)
      {
        var u :| u in UnseenOf(old(mailbox.messages))
          && EmailOfReply(WholeOf(old(mailbox.messages), u), u, htmlText) == Some(e);
      }
      end := DispatchOwned(dispatcher, mails, hash, settings.totalWorkers, settings.workerId);
      if end == Completed {
        slept := slept + PollIntervalSecs;
      }
    }
  }
}
