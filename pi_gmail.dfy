/** The newer mailbox reader (`pi_email/common/src/gmail.rs`): every UNSEEN
    message is fetched on its own with `BODY.PEEK[]`; a message that cannot
    be fetched that way goes through a fallback that returns a placeholder
    record and marks the message \Seen; a message that fails on its own is
    skipped without stopping the rest. */
module PiGmail {
  import opened Wrappers
  import opened Text
  import opened Mime
  import opened Imap

  /** What reading one id yields: the parsed record after a successful peek,
      or the placeholder when the peek was refused and the fallback FETCH
      returned a row. */
  function PiFetchOne(m: map<Uid, Message>, u: Uid, htmlText: string -> string): (r: Option<Email>)
    ensures r.Some? ==> ParseDigits(r.value.uid) == Some(u)
  {
    if WholeOf(m, u).Refused? then
      (if SectionsOf(m, u).SectionRow? then Some(PlaceholderEmail(u)) else None)
    else EmailOfReply(WholeOf(m, u), u, htmlText)
  }

  /** Whether reading `u` sets its \Seen flag: only the fallback does. */
  predicate FallbackMarks(m: map<Uid, Message>, u: Uid) {
    WholeOf(m, u).Refused? && SectionsOf(m, u).SectionRow?
  }

  /** The flags after reading every id of `done`: only the ids that went
      through a fallback returning a row became \Seen. */
  function FlagsAfterReading(m: map<Uid, Message>, done: set<Uid>): (r: map<Uid, Message>)
    ensures r.Keys == m.Keys
  {
    map u | u in m :: if u in done && FallbackMarks(m, u) then m[u].(seen := true) else m[u]
  }

  /** `try_alternative_fetch`: a row from the section FETCH gives the
      placeholder record and a STORE of \Seen, whose result is ignored;
      otherwise nothing. It never fails. */
  method TryAlternativeFetch(mb: Mailbox, uid: Uid) returns (r: Result<Option<Email>>)
    modifies mb
    ensures r == Ok(if SectionsOf(old(mb.messages), uid).SectionRow? then Some(PlaceholderEmail(uid)) else None)
    ensures mb.messages == if SectionsOf(old(mb.messages), uid).SectionRow? then MarkSeen(old(mb.messages), uid) else old(mb.messages)
  {
    var rows := mb.UidFetchSections(uid);
    if rows.SectionRow? {
      var email := PlaceholderEmail(uid);
      DecimalRoundTrip(uid);
      var _ := mb.StoreSeen(Decimal(uid));
      return Ok(Some(email));
    }
    return Ok(None);
  }

  /** `fetch_single_email`: a peek, then parsing; a refused peek falls back.
      It never returns an error, so the error arm of the caller's loop is
      never taken. */
  method FetchSingleEmail(mb: Mailbox, uid: Uid, htmlText: string -> string) returns (r: Result<Option<Email>>)
    modifies mb
    ensures r == Ok(PiFetchOne(old(mb.messages), uid, htmlText))
    ensures mb.messages == if FallbackMarks(old(mb.messages), uid) then MarkSeen(old(mb.messages), uid) else old(mb.messages)
  {
    var reply := mb.UidFetchPeek(uid);
    if reply.Refused? {
      r := TryAlternativeFetch(mb, uid);
      return;
    }
    match reply
    case Row(parsed) =>
      match ParseSingleEmail(uid, parsed, htmlText) {
        case Ok(email) =>
          // the \Seen store that used to follow is disabled: the peek leaves the flag alone
          return Ok(Some(email));
        case Err(_) =>
          return Ok(None);
      }
    case _ =>
      return Ok(None);
  }

  /** Marking one more id keeps the other ids' answers, so later reads see the same replies. */
  lemma MarkSeenKeepsReplies(m: map<Uid, Message>, v: Uid, u: Uid)
    ensures WholeOf(MarkSeen(m, v), u) == WholeOf(m, u)
    ensures SectionsOf(MarkSeen(m, v), u) == SectionsOf(m, u)
  {
  }

  lemma FlagsAfterReadingStep(m0: map<Uid, Message>, done: set<Uid>, u: Uid)
    requires u in m0 && u !in done
    ensures (if FallbackMarks(m0, u) then MarkSeen(FlagsAfterReading(m0, done), u) else FlagsAfterReading(m0, done))
         == FlagsAfterReading(m0, done + {u})
  {
  }

  /** `fetch_unseen_emails`: select, search UNSEEN, then read every id in
      the order the search set yields them. Only the select and the search
      can fail the call; an id that yields nothing is skipped. */
  method FetchUnseenEmails(mb: Mailbox, selectOk: bool, searchOk: bool, htmlText: string -> string)
    returns (r: Result<seq<Email>>)
    modifies mb
    ensures !(selectOk && searchOk) ==> r.Err? && mb.messages == old(mb.messages)
    ensures selectOk && searchOk ==> r.Ok?
    ensures r.Ok? ==> forall e <- r.value ::
      exists u :: u in UnseenOf(old(mb.messages)) && PiFetchOne(old(mb.messages), u, htmlText) == Some(e)
    ensures r.Ok? ==> forall u :: u in UnseenOf(old(mb.messages)) && PiFetchOne(old(mb.messages), u, htmlText).Some? ==>
      PiFetchOne(old(mb.messages), u, htmlText).value in r.value
    ensures r.Ok? ==> forall i, j :: 0 <= i < j < |r.value| ==> r.value[i].uid != r.value[j].uid
    ensures r.Ok? ==> mb.messages == FlagsAfterReading(old(mb.messages), UnseenOf(old(mb.messages)))
  {
    if !selectOk {
      return Err("SELECT INBOX failed");
    }
    if !searchOk {
      return Err("UID SEARCH UNSEEN failed");
    }
    ghost var m0 := mb.messages;
    var uids := mb.Unseen();
    if uids == {} {
      assert FlagsAfterReading(m0, uids) == m0;
      return Ok([]);
    }
    var out: seq<Email> := [];
    var remaining := uids;
    ghost var done: set<Uid> := {};
    ghost var taken: seq<Uid> := [];
    while remaining != {}
      invariant remaining + done == uids && remaining !! done
      invariant mb.messages == FlagsAfterReading(m0, done)
      invariant Collected(m0, htmlText, done, out, taken)
      decreases remaining
    {
      var uid :| uid in remaining;
      remaining := remaining - {uid};
      out, taken := ReadOne(mb, uid, htmlText, out, m0, done, taken);
      done := done + {uid};
    }
    r := Ok(out);
    assert done == UnseenOf(m0);
    forall e | e in out
      ensures exists u :: u in UnseenOf(m0) && PiFetchOne(m0, u, htmlText) == Some(e)
    {
      var k :| 0 <= k < |out| && out[k] == e;
      assert taken[k] in UnseenOf(m0);
    }
  }

  /** What the loop has gathered after reading the ids of `done` from the
      mailbox `m0`: `taken` names the id of each record of `out`, every
      record an id yields is present, and the uids are distinct. */
  ghost predicate Collected(m0: map<Uid, Message>, htmlText: string -> string,
                            done: set<Uid>, out: seq<Email>, taken: seq<Uid>)
  {
    && |taken| == |out|
    && (forall k :: 0 <= k < |out| ==> taken[k] in done && PiFetchOne(m0, taken[k], htmlText) == Some(out[k]))
    && (forall u :: u in done && PiFetchOne(m0, u, htmlText).Some? ==> PiFetchOne(m0, u, htmlText).value in out)
    && (forall i, j :: 0 <= i < j < |out| ==> out[i].uid != out[j].uid)
  }

  /** Reading one more id extends the record by what it yields, if anything. */
  lemma CollectedStep(m0: map<Uid, Message>, htmlText: string -> string,
                      done: set<Uid>, out: seq<Email>, taken: seq<Uid>, uid: Uid)
    requires uid !in done
    requires Collected(m0, htmlText, done, out, taken)
    ensures var e := PiFetchOne(m0, uid, htmlText);
      Collected(m0, htmlText, done + {uid}, out + (if e.Some? then [e.value] else []),
                taken + (if e.Some? then [uid] else []))
  {
    var e := PiFetchOne(m0, uid, htmlText);
    var out', taken' := out + (if e.Some? then [e.value] else []), taken + (if e.Some? then [uid] else []);
    var done' := done + {uid};
    forall k | 0 <= k < |out'|
      ensures taken'[k] in done' && PiFetchOne(m0, taken'[k], htmlText) == Some(out'[k])
    {
      if k < |out| {
        assert taken'[k] == taken[k] && out'[k] == out[k];
      }
    }
    forall u | u in done' && PiFetchOne(m0, u, htmlText).Some?
      ensures PiFetchOne(m0, u, htmlText).value in out'
    {
      if u != uid {
        assert PiFetchOne(m0, u, htmlText).value in out;
      }
    }
    if e.Some? {
      forall k | 0 <= k < |out|
        ensures out[k].uid != e.value.uid
      {
        assert ParseDigits(out[k].uid) == Some(taken[k]);
      }
    }
    assert forall i, j :: 0 <= i < j < |out'| ==> out'[i].uid != out'[j].uid;
  }

  /** One pass of the loop: `fetch_single_email` for `uid`, whose record,
      if any, is appended; the error arm is never taken. */
  method ReadOne(mb: Mailbox, uid: Uid, htmlText: string -> string, out: seq<Email>,
                 ghost m0: map<Uid, Message>, ghost done: set<Uid>, ghost taken: seq<Uid>)
    returns (out': seq<Email>, ghost taken': seq<Uid>)
    requires uid in m0 && uid !in done
    requires mb.messages == FlagsAfterReading(m0, done)
    requires Collected(m0, htmlText, done, out, taken)
    modifies mb
    ensures mb.messages == FlagsAfterReading(m0, done + {uid})
    ensures out' == out + (if PiFetchOne(m0, uid, htmlText).Some? then [PiFetchOne(m0, uid, htmlText).value] else [])
    ensures Collected(m0, htmlText, done + {uid}, out', taken')
  {
    out', taken' := out, taken;
    assert WholeOf(mb.messages, uid) == WholeOf(m0, uid) && SectionsOf(mb.messages, uid) == SectionsOf(m0, uid);
    ghost var e := PiFetchOne(m0, uid, htmlText);
    CollectedStep(m0, htmlText, done, out, taken, uid);
    var one := FetchSingleEmail(mb, uid, htmlText);
    FlagsAfterReadingStep(m0, done, uid);
    match one {
      case Ok(Some(email)) =>
        out' := out + [email];
        taken' := taken + [uid];
      case Ok(None) =>
      case Err(_) =>
    }
    assert out' == out + (if e.Some? then [e.value] else []);
    assert taken' == taken + (if e.Some? then [uid] else []);
  }
}
