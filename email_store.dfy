/** The in-memory email store of `common/src/email.rs`: a map from id to
    record that incoming mail is inserted into and looked up in. The store
    is an object whose map the operations update in place. The fresh id and
    the arrival time are parameters, since they come from a UUID generator
    and the clock. */
module EmailStore {
  import opened Wrappers

  /** An arrival time, opaque to the model. */
  type Timestamp = nat

  datatype StoredEmail = StoredEmail(id: string, from: string, to: string, subject: string,
                                     body: string, receivedAt: Timestamp,
                                     category: Option<string>, aiProcessed: bool)

  /** Every record sits under its own id. */
  predicate Keyed(m: map<string, StoredEmail>) {
    forall k | k in m :: m[k].id == k
  }

  /** A freshly received email: not yet classified nor processed. */
  function Received(id: string, from: string, to: string, subject: string, body: string,
                    at: Timestamp): (e: StoredEmail)
    ensures e.category.None? && !e.aiProcessed
  {
    StoredEmail(id, from, to, subject, body, at, None, false)
  }

  class Store {
    var emails: map<string, StoredEmail>

    ghost predicate Valid()
      reads this
    {
      Keyed(emails)
    }

    constructor()
      ensures Valid() && emails == map[]
    {
      emails := map[];
    }

    /** `process_incoming_email`: stores a new record under `id` and returns
        that id. Only the entry for `id` changes. */
    method ProcessIncomingEmail(id: string, from: string, to: string, subject: string,
                                body: string, at: Timestamp) returns (r: Result<string>)
      requires Valid()
      modifies this
      ensures Valid()
      ensures r == Ok(id)
      ensures emails == old(emails)[id := Received(id, from, to, subject, body, at)]
      ensures id in emails && emails[id].from == from && emails[id].to == to
      ensures emails[id].subject == subject && emails[id].body == body
      ensures forall k | k in old(emails) && k != id :: k in emails && emails[k] == old(emails)[k]
    {
      emails := emails[id := Received(id, from, to, subject, body, at)];
      r := Ok(id);
    }

    /** `get_email`: a copy of the record stored under `id`, or an error when
        there is none. */
    method GetEmail(id: string) returns (r: Result<StoredEmail>)
      ensures r.Ok? <==> id in emails
      ensures r.Ok? ==> r.value == emails[id]
    {
      if id in emails {
        r := Ok(emails[id]);
      } else {
        r := Err("email not found: " + id);
      }
    }
  }

  /** The record returned after an insertion is the one inserted, and every
      other lookup answers as before. */
  lemma LookupAfterInsert(m: map<string, StoredEmail>, e: StoredEmail, k: string)
    requires Keyed(m)
    ensures Keyed(m[e.id := e])
    ensures k == e.id ==> k in m[e.id := e] && m[e.id := e][k] == e
    ensures k != e.id ==> (k in m[e.id := e] <==> k in m)
    ensures k != e.id && k in m ==> m[e.id := e][k] == m[k]
  {
  }

  /** With a fresh id, an insertion changes no stored record: records are
      only ever added. */
  lemma FreshInsertKeepsRecords(m: map<string, StoredEmail>, e: StoredEmail)
    requires e.id !in m
    ensures m.Keys < m[e.id := e].Keys
    ensures forall k | k in m :: m[e.id := e][k] == m[k]
  {
    assert e.id in m[e.id := e].Keys;
  }
}
