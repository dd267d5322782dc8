/** The mailbox as the readers see it over IMAP: each message id has a
    \Seen flag, plus what the server answers for it. Only the flag changes,
    and only as RFC 3501 says:
    - section 6.4.5: FETCH of `BODY.PEEK[...]` leaves \Seen alone, while
      `RFC822` and `BODY[...]` set it when the server returns the data;
    - section 6.4.6: `STORE ... +FLAGS (\Seen)` sets it;
    - section 6.4.3: `EXPUNGE` removes only messages flagged \Deleted. Nothing
      in this system sets \Deleted, so an EXPUNGE changes nothing here and is
      not a separate operation of the model.
    UIDs and message sequence numbers are one id space in this model. */
module Imap {
  import opened Wrappers
  import opened Text
  import opened Mime

  type Uid = nat

  /** The answer to a FETCH of the whole message (`BODY.PEEK[]` or `RFC822`). */
  datatype FetchReply =
    | Refused                     // the command fails
    | NoRows                      // the command succeeds with no FETCH row
    | RowWithoutBody              // a row without the body item
    | Row(parsed: Option<Mail>)   // the message bytes, as `parse_mail` reads them (None: unparsable)

  /** The answer to `UID FETCH <uid> BODY[HEADER] BODY[TEXT]`. */
  datatype SectionReply = SectionRefused | SectionNoRows | SectionRow

  /** One message: its \Seen flag and the server's fixed answers for it. */
  datatype Message = Message(seen: bool, whole: FetchReply, sections: SectionReply, storeRefused: bool)

  /** The flag update STORE +FLAGS (\Seen) and the non-peek FETCHes perform. */
  function MarkSeen(m: map<Uid, Message>, u: Uid): (r: map<Uid, Message>)
    ensures r.Keys == m.Keys
  {
    if u in m then m[u := m[u].(seen := true)] else m
  }

  /** Marking a message seen twice is marking it once. */
  lemma MarkSeenTwice(m: map<Uid, Message>, u: Uid)
    ensures MarkSeen(MarkSeen(m, u), u) == MarkSeen(m, u)
  {
  }

  /** The answer to a whole-message FETCH; an id with no message gives no row. */
  function WholeOf(m: map<Uid, Message>, u: Uid): FetchReply {
    if u in m then m[u].whole else NoRows
  }

  function SectionsOf(m: map<Uid, Message>, u: Uid): SectionReply {
    if u in m then m[u].sections else SectionNoRows
  }

  /** The ids a `SEARCH UNSEEN` / `UID SEARCH UNSEEN` returns. */
  function UnseenOf(m: map<Uid, Message>): set<Uid> {
    set u | u in m && !m[u].seen
  }

  /** What a reader makes of a whole-message reply: a row with a body that
      parses becomes the record `parse_single_email` builds; anything else
      yields nothing. */
  function EmailOfReply(reply: FetchReply, u: Uid, htmlText: string -> string): (r: Option<Email>)
    ensures r.Some? ==> ParseDigits(r.value.uid) == Some(u)
    ensures r.Some? <==> reply.Row? && reply.parsed.Some?
  {
    match reply
    case Row(parsed) =>
      (match ParseSingleEmail(u, parsed, htmlText)
       case Ok(e) => Some(e)
       case Err(_) => None)
    case _ => None
  }

  class Mailbox {
    var messages: map<Uid, Message>

    constructor (messages: map<Uid, Message>)
      ensures this.messages == messages
    {
      this.messages := messages;
    }

    function Unseen(): set<Uid>
      reads this
    {
      UnseenOf(messages)
    }

    /** `UID FETCH <uid> BODY.PEEK[]`: the peek leaves every flag as it was. */
    method UidFetchPeek(uid: Uid) returns (r: FetchReply)
      ensures r == WholeOf(messages, uid)
    {
      r := WholeOf(messages, uid);
    }

    /** `UID FETCH <uid> BODY[HEADER] BODY[TEXT]`: returning the sections sets \Seen. */
    method UidFetchSections(uid: Uid) returns (r: SectionReply)
      modifies this
      ensures r == SectionsOf(old(messages), uid)
      ensures messages == if r.SectionRow? then MarkSeen(old(messages), uid) else old(messages)
    {
      r := SectionsOf(messages, uid);
      if r.SectionRow? {
        messages := MarkSeen(messages, uid);
      }
    }

    /** `FETCH <id> RFC822`: returning the message sets \Seen. */
    method FetchRfc822(id: Uid) returns (r: FetchReply)
      modifies this
      ensures r == WholeOf(old(messages), id)
      ensures messages == if r.Row? then MarkSeen(old(messages), id) else old(messages)
    {
      r := WholeOf(messages, id);
      if r.Row? {
        messages := MarkSeen(messages, id);
      }
    }

    /** `STORE <set> +FLAGS (\Seen)` (and its UID form) for a set written as
        one decimal id: text that is not a number is rejected, a refused store
        fails, an id with no message succeeds without effect. */
    method StoreSeen(idText: string) returns (r: Result<()>)
      modifies this
      ensures ParseDigits(idText).None? ==> r.Err? && messages == old(messages)
      ensures ParseDigits(idText).Some? ==>
        var u := ParseDigits(idText).value;
        if u in old(messages) && old(messages)[u].storeRefused
        then r.Err? && messages == old(messages)
        else r.Ok? && messages == MarkSeen(old(messages), u)
    {
      match ParseDigits(idText)
      case None =>
        r := Err("BAD sequence set");
      case Some(u) =>
        if u in messages && messages[u].storeRefused {
          r := Err("NO store refused");
        } else {
          messages := MarkSeen(messages, u);
          r := Ok(());
        }
    }
  }
}
