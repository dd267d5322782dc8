/** The older mailbox reader (`common/src/gmail.rs`): every UNSEEN message
    is fetched with `RFC822`, which by itself sets \Seen, and a \Seen STORE
    follows for every message whose body came back, parsed or not. The first
    FETCH that fails aborts the whole call and drops what was collected; the
    flags already set stay set. The body extraction and attachment walk are
    the ones of `Mime`, which this file repeats inline. */
module CommonGmail {
  import opened Wrappers
  import opened Text
  import opened Mime
  import opened Imap

  /** Whether reading `id` sets its \Seen flag: whenever a row with the body comes back. */
  predicate ReadMarks(m: map<Uid, Message>, id: Uid) {
    WholeOf(m, id).Row?
  }

  /** The flags after reading every id of `done`. */
  function FlagsAfterReading(m: map<Uid, Message>, done: set<Uid>): (r: map<Uid, Message>)
    ensures r.Keys == m.Keys
  {
    map u | u in m :: if u in done && ReadMarks(m, u) then m[u].(seen := true) else m[u]
  }

  lemma FlagsAfterReadingStep(m0: map<Uid, Message>, done: set<Uid>, u: Uid)
    requires u in m0 && u !in done
    ensures (if ReadMarks(m0, u) then MarkSeen(FlagsAfterReading(m0, done), u) else FlagsAfterReading(m0, done))
         == FlagsAfterReading(m0, done + {u})
  {
  }

  /** `fetch_unseen_emails` of the older reader. On success the result holds
      exactly the parsed messages among the UNSEEN ones, one per id, and
      every message whose body was fetched is now \Seen, returned or not. On
      a failed FETCH the call fails; each message is then either untouched
      or one of the searched ids whose body was fetched, now \Seen. */
  method FetchUnseenEmails(mb: Mailbox, selectOk: bool, searchOk: bool, htmlText: string -> string)
    returns (r: Result<seq<Email>>)
    modifies mb
    ensures !(selectOk && searchOk) ==> r.Err? && mb.messages == old(mb.messages)
    ensures selectOk && searchOk ==>
      (r.Err? <==> exists u :: u in UnseenOf(old(mb.messages)) && WholeOf(old(mb.messages), u).Refused?)
    ensures r.Ok? ==> forall e <- r.value ::
      exists u :: u in UnseenOf(old(mb.messages)) && EmailOfReply(WholeOf(old(mb.messages), u), u, htmlText) == Some(e)
    ensures r.Ok? ==> forall u :: u in UnseenOf(old(mb.messages)) && EmailOfReply(WholeOf(old(mb.messages), u), u, htmlText).Some? ==>
      EmailOfReply(WholeOf(old(mb.messages), u), u, htmlText).value in r.value
    ensures r.Ok? ==> forall i, j :: 0 <= i < j < |r.value| ==> r.value[i].uid != r.value[j].uid
    ensures r.Ok? ==> mb.messages == FlagsAfterReading(old(mb.messages), UnseenOf(old(mb.messages)))
    ensures mb.messages.Keys == old(mb.messages).Keys
    ensures forall u :: u in mb.messages ==>
      mb.messages[u] == old(mb.messages)[u]
      || (u in UnseenOf(old(mb.messages)) && ReadMarks(old(mb.messages), u) && mb.messages[u] == old(mb.messages)[u].(seen := true))
  {
    if !selectOk {
      return Err("SELECT INBOX failed");
    }
    if !searchOk {
      return Err("SEARCH UNSEEN failed");
    }
    ghost var m0 := mb.messages;
    var ids := mb.Unseen();
    var out: seq<Email> := [];
    var remaining := ids;
    ghost var done: set<Uid> := {};
    ghost var taken: seq<Uid> := [];
    assert FlagsAfterReading(m0, done) == m0;
    while remaining != {}
      invariant remaining + done == ids && remaining !! done
      invariant mb.messages == FlagsAfterReading(m0, done)
      invariant Collected(m0, htmlText, done, out, taken)
      decreases remaining
    {
      var id :| id in remaining;
      remaining := remaining - {id};
      var ok;
      ok, out, taken := ReadOne(mb, id, htmlText, out, m0, done, taken);
      if !ok {
        assert id in UnseenOf(m0) && WholeOf(m0, id).Refused?;
        return Err("FETCH RFC822 failed");
      }
      done := done + {id};
    }
    r := Ok(out);
    assert done == UnseenOf(m0);
    assert forall u | u in UnseenOf(m0) :: !WholeOf(m0, u).Refused?;
    forall e | e in out
      ensures exists u :: u in UnseenOf(m0) && EmailOfReply(WholeOf(m0, u), u, htmlText) == Some(e)
    {
      var k :| 0 <= k < |out| && out[k] == e;
      assert taken[k] in UnseenOf(m0);
    }
  }

  /** What the loop has collected after reading the ids of `done` from the
      mailbox `m0`: `taken` names the id of each record of `out`, every
      parseable message read is present, the uids are distinct, and no read
      FETCH was refused. */
  ghost predicate Collected(m0: map<Uid, Message>, htmlText: string -> string,
                            done: set<Uid>, out: seq<Email>, taken: seq<Uid>)
  {
    && |taken| == |out|
    && (forall k :: 0 <= k < |out| ==> taken[k] in done && EmailOfReply(WholeOf(m0, taken[k]), taken[k], htmlText) == Some(out[k]))
    && (forall u :: u in done && EmailOfReply(WholeOf(m0, u), u, htmlText).Some? ==> EmailOfReply(WholeOf(m0, u), u, htmlText).value in out)
    && (forall i, j :: 0 <= i < j < |out| ==> out[i].uid != out[j].uid)
    && (forall u | u in done :: !WholeOf(m0, u).Refused?)
  }

  /** Reading one more id that was not refused extends the record by its
      parsed message, if any. */
  lemma CollectedStep(m0: map<Uid, Message>, htmlText: string -> string,
                      done: set<Uid>, out: seq<Email>, taken: seq<Uid>, id: Uid)
    requires id !in done && !WholeOf(m0, id).Refused?
    requires Collected(m0, htmlText, done, out, taken)
    ensures var e := EmailOfReply(WholeOf(m0, id), id, htmlText);
      Collected(m0, htmlText, done + {id}, out + (if e.Some? then [e.value] else []),
                taken + (if e.Some? then [id] else []))
  {
    var e := EmailOfReply(WholeOf(m0, id), id, htmlText);
    var out', taken' := out + (if e.Some? then [e.value] else []), taken + (if e.Some? then [id] else []);
    var done' := done + {id};
    forall k | 0 <= k < |out'|
      ensures taken'[k] in done' && EmailOfReply(WholeOf(m0, taken'[k]), taken'[k], htmlText) == Some(out'[k])
    {
      if k < |out| {
        assert taken'[k] == taken[k] && out'[k] == out[k];
      }
    }
    forall u | u in done' && EmailOfReply(WholeOf(m0, u), u, htmlText).Some?
      ensures EmailOfReply(WholeOf(m0, u), u, htmlText).value in out'
    {
      if u != id {
        assert EmailOfReply(WholeOf(m0, u), u, htmlText).value in out;
      }
    }
    if e.Some? {
      forall k | 0 <= k < |out|
        ensures out[k].uid != e.value.uid
      {
        assert ParseDigits(out[k].uid) == Some(taken[k]);
      }
    }
    assert forall i, j :: 0 <= i < j < |out'| ==> out'[i].uid != out'[j].uid;
  }

  /** One pass of the loop: `FETCH <id> RFC822`; a refusal ends the read
      (`ok` false, nothing changed), a row has its record appended when it
      parses and is then stored \Seen. */
  method ReadOne(mb: Mailbox, id: Uid, htmlText: string -> string, out: seq<Email>,
                 ghost m0: map<Uid, Message>, ghost done: set<Uid>, ghost taken: seq<Uid>)
    returns (ok: bool, out': seq<Email>, ghost taken': seq<Uid>)
    requires id in m0 && id !in done
    requires mb.messages == FlagsAfterReading(m0, done)
    requires Collected(m0, htmlText, done, out, taken)
    modifies mb
    ensures ok <==> !WholeOf(m0, id).Refused?
    ensures !ok ==> mb.messages == old(mb.messages)
    ensures ok ==> mb.messages == FlagsAfterReading(m0, done + {id})
    ensures ok ==> Collected(m0, htmlText, done + {id}, out', taken')
  {
    out', taken' := out, taken;
    assert WholeOf(mb.messages, id) == WholeOf(m0, id);
    var reply := mb.FetchRfc822(id);
    if reply.Refused? {
      return false, out', taken';
    }
    ok := true;
    ghost var e := EmailOfReply(reply, id, htmlText);
    CollectedStep(m0, htmlText, done, out, taken, id);
    FlagsAfterReadingStep(m0, done, id);
    ghost var read := mb.messages;
    if reply.Row? {
      match ParseSingleEmail(id, reply.parsed, htmlText) {
        case Ok(email) =>
          out' := out + [email];
          taken' := taken + [id];
        case Err(_) =>
      }
      DecimalRoundTrip(id);
      MarkSeenTwice(old(mb.messages), id);
      var _ := mb.StoreSeen(Decimal(id));
      assert mb.messages == read;
    }
    assert out' == out + (if e.Some? then [e.value] else []);
    assert taken' == taken + (if e.Some? then [id] else []);
  }
}
