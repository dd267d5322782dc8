/** The MIME part tree both mailbox readers walk (RFC 2045 / RFC 2046
    multipart bodies, RFC 2183 Content-Disposition), and the pure functions
    over it: the first readable text body, the attachment names, and the
    record built for one parsed message.

    Decoding transfer encodings, parsing headers and turning HTML into text
    are done by foreign crates; the tree records their outcomes, and the HTML
    reduction is a function parameter `htmlText`. */
module Mime {
  import opened Wrappers
  import opened Text

  /** One node of the parsed message. `body` is the decoded body of this part
      (`get_body()`), None when decoding fails. `disposition` is the first
      Content-Disposition header value and `filename` its `filename`
      parameter; `name` is the Content-Type `name` parameter. */
  datatype Part = Part(
    mimetype: string,
    body: Option<string>,
    disposition: Option<string>,
    filename: Option<string>,
    name: Option<string>,
    subparts: seq<Part>)

  /** A parsed message: its first Subject and From header values and its root part. */
  datatype Mail = Mail(subject: Option<string>, from: Option<string>, root: Part)

  /** The record the mailbox readers hand to the notifiers. */
  datatype Email = Email(
    uid: string,
    subject: string,
    from: string,
    body: string,
    attachments: seq<string>,
    gmailLink: string)

  const NoSubject := "(제목 없음)"
  const NoSender := "(보낸 사람 없음)"
  const NoBody := "(본문 없음)"
  const LinkPrefix := "https://mail.google.com/mail/u/0/#search/rfc822msgid:"

  predicate IsLeaf(p: Part) {
    p.subparts == []
  }

  predicate HasType(p: Part, mimetype: string) {
    EqIgnoreAsciiCase(p.mimetype, mimetype)
  }

  // ---------------------------------------------------------------------
  // extract_plain_body

  /** `extract_plain_body`: a text/plain leaf yields its decoded body (or
      nothing when decoding fails); otherwise the children are tried in order
      and the first that yields wins; a text/html leaf whose body decodes
      yields that body reduced to text. */
  function ExtractPlainBody(p: Part, htmlText: string -> string): Option<string>
    decreases p, 1
  {
    if IsLeaf(p) && HasType(p, "text/plain") then p.body
    else match ExtractFromSubparts(p, 0, htmlText)
      case Some(b) => Some(b)
      case None =>
        if IsLeaf(p) && HasType(p, "text/html") && p.body.Some? then Some(htmlText(p.body.value))
        else None
  }

  /** The `for sub in &part.subparts` loop of `extract_plain_body`, from child `i` on. */
  function ExtractFromSubparts(p: Part, i: nat, htmlText: string -> string): Option<string>
    requires i <= |p.subparts|
    decreases p, 0, |p.subparts| - i
  {
    if i == |p.subparts| then None
    else match ExtractPlainBody(p.subparts[i], htmlText)
      case Some(b) => Some(b)
      case None => ExtractFromSubparts(p, i + 1, htmlText)
  }

  /** The leaves of the tree in left-to-right pre-order. */
  function Leaves(p: Part): (r: seq<Part>)
    ensures forall k :: 0 <= k < |r| ==> IsLeaf(r[k])
    decreases p, 1
  {
    if IsLeaf(p) then [p] else LeavesFrom(p, 0)
  }

  function LeavesFrom(p: Part, i: nat): (r: seq<Part>)
    requires i <= |p.subparts|
    ensures forall k :: 0 <= k < |r| ==> IsLeaf(r[k])
    decreases p, 0, |p.subparts| - i
  {
    if i == |p.subparts| then [] else Leaves(p.subparts[i]) + LeavesFrom(p, i + 1)
  }

  /** What one leaf offers as a body: a text/plain leaf its decoded body, a
      text/html leaf its decoded body reduced to text, any other leaf nothing. */
  function LeafText(leaf: Part, htmlText: string -> string): Option<string> {
    if HasType(leaf, "text/plain") then leaf.body
    else if HasType(leaf, "text/html") && leaf.body.Some? then Some(htmlText(leaf.body.value))
    else None
  }

  /** The first leaf of `leaves` that offers a body. */
  function FirstText(leaves: seq<Part>, htmlText: string -> string): Option<string> {
    if leaves == [] then None
    else match LeafText(leaves[0], htmlText)
      case Some(b) => Some(b)
      case None => FirstText(leaves[1..], htmlText)
  }

  lemma {:induction false} FirstTextAppend(a: seq<Part>, b: seq<Part>, htmlText: string -> string)
    ensures FirstText(a + b, htmlText)
         == if FirstText(a, htmlText).Some? then FirstText(a, htmlText) else FirstText(b, htmlText)
  {
    if a != [] {
      assert (a + b)[0] == a[0];
      assert (a + b)[1..] == a[1..] + b;
      FirstTextAppend(a[1..], b, htmlText);
    } else {
      assert a + b == b;
    }
  }

  /** `extract_plain_body` is a first-match depth-first search: it returns
      what the first leaf, in left-to-right pre-order, offers as a body. A
      multipart node never contributes a body of its own. */
  lemma {:induction false} ExtractIsFirstLeafText(p: Part, htmlText: string -> string)
    ensures ExtractPlainBody(p, htmlText) == FirstText(Leaves(p), htmlText)
    decreases p, 1
  {
    if IsLeaf(p) {
      assert Leaves(p) == [p];
      assert FirstText([p][1..], htmlText) == None;
    } else {
      ExtractFromIsFirstLeafText(p, 0, htmlText);
    }
  }

  lemma {:induction false} ExtractFromIsFirstLeafText(p: Part, i: nat, htmlText: string -> string)
    requires i <= |p.subparts|
    ensures ExtractFromSubparts(p, i, htmlText) == FirstText(LeavesFrom(p, i), htmlText)
    decreases p, 0, |p.subparts| - i
  {
    if i < |p.subparts| {
      ExtractIsFirstLeafText(p.subparts[i], htmlText);
      ExtractFromIsFirstLeafText(p, i + 1, htmlText);
      FirstTextAppend(Leaves(p.subparts[i]), LeavesFrom(p, i + 1), htmlText);
    }
  }

  // ---------------------------------------------------------------------
  // collect_attachments

  /** The lower-cased Content-Disposition starts with "attachment"
      (RFC 2183 section 2). */
  predicate AttachmentDisposition(p: Part) {
    p.disposition.Some? && StartsWith(Lower(p.disposition.value), "attachment")
  }

  /** The disposition filename, when the disposition is an attachment and
      names a file. */
  function DispositionName(p: Part): seq<string> {
    if AttachmentDisposition(p) && p.filename.Some? then [p.filename.value] else []
  }

  /** The Content-Type `name` parameter, whatever the disposition. */
  function ContentTypeName(p: Part): seq<string> {
    if p.name.Some? then [p.name.value] else []
  }

  /** The names one part contributes, before those of its children. */
  function OwnNames(p: Part): seq<string> {
    DispositionName(p) + ContentTypeName(p)
  }

  /** All names `collect_attachments` appends for `p`: pre-order, each part's
      own names first, then its children's in order. */
  function Attachments(p: Part): seq<string>
    decreases p, 1
  {
    OwnNames(p) + AttachmentsFrom(p, 0)
  }

  function AttachmentsFrom(p: Part, i: nat): seq<string>
    requires i <= |p.subparts|
    decreases p, 0, |p.subparts| - i
  {
    if i == |p.subparts| then [] else Attachments(p.subparts[i]) + AttachmentsFrom(p, i + 1)
  }

  /** The number of parts in the tree. */
  function PartCount(p: Part): nat
    decreases p, 1
  {
    1 + PartCountFrom(p, 0)
  }

  function PartCountFrom(p: Part, i: nat): nat
    requires i <= |p.subparts|
    decreases p, 0, |p.subparts| - i
  {
    if i == |p.subparts| then 0 else PartCount(p.subparts[i]) + PartCountFrom(p, i + 1)
  }

  /** Each part contributes at most two names. */
  lemma {:induction false} AttachmentsBound(p: Part)
    ensures |Attachments(p)| <= 2 * PartCount(p)
    decreases p, 1
  {
    AttachmentsFromBound(p, 0);
  }

  lemma {:induction false} AttachmentsFromBound(p: Part, i: nat)
    requires i <= |p.subparts|
    ensures |AttachmentsFrom(p, i)| <= 2 * PartCountFrom(p, i)
    decreases p, 0, |p.subparts| - i
  {
    if i < |p.subparts| {
      AttachmentsBound(p.subparts[i]);
      AttachmentsFromBound(p, i + 1);
    }
  }

  /** `collect_attachments(part, out)`: appends to `out` and never rewrites
      what was there, so the old contents stay a prefix. */
  method CollectAttachments(p: Part, out: seq<string>) returns (out': seq<string>)
    ensures out' == out + Attachments(p)
    decreases p
  {
    out' := out;
    if AttachmentDisposition(p) {
      if p.filename.Some? {
        out' := out' + [p.filename.value];
      }
    }
    assert out' == out + DispositionName(p);
    if p.name.Some? {
      out' := out' + [p.name.value];
    }
    assert out' == out + OwnNames(p);
    AppendAssoc(out, OwnNames(p), AttachmentsFrom(p, 0));
    var i := 0;
    while i < |p.subparts|
      invariant 0 <= i <= |p.subparts|
      invariant out' + AttachmentsFrom(p, i) == out + Attachments(p)
    {
      ghost var before := out';
      out' := CollectAttachments(p.subparts[i], out');
      AppendAssoc(before, Attachments(p.subparts[i]), AttachmentsFrom(p, i + 1));
      i := i + 1;
    }
  }

  // ---------------------------------------------------------------------
  // parse_single_email (and the same inline code of the older reader)

  /** The body chosen for a message: the first readable text leaf, else the
      root's own decoded body, else the fixed placeholder. */
  function BodyOf(m: Mail, htmlText: string -> string): string {
    match ExtractPlainBody(m.root, htmlText)
    case Some(b) => b
    case None => m.root.body.GetOr(NoBody)
  }

  /** `parse_single_email`: `parsed` is what `parse_mail` made of the fetched
      bytes, None when it failed. */
  function ParseSingleEmail(uid: nat, parsed: Option<Mail>, htmlText: string -> string): (r: Result<Email>)
    ensures r.Ok? <==> parsed.Some?
    ensures r.Ok? ==> ParseDigits(r.value.uid) == Some(uid)
    ensures r.Ok? ==> r.value.gmailLink == LinkPrefix + r.value.uid
    ensures r.Ok? ==> r.value.subject == (if parsed.value.subject.Some? then parsed.value.subject.value else NoSubject)
    ensures r.Ok? ==> r.value.from == (if parsed.value.from.Some? then parsed.value.from.value else NoSender)
    ensures r.Ok? ==> r.value.body == BodyOf(parsed.value, htmlText)
    ensures r.Ok? ==> r.value.attachments == Attachments(parsed.value.root)
  {
    match parsed
    case None => Err("parse_mail failed")
    case Some(m) =>
      DecimalRoundTrip(uid);
      Ok(Email(
        uid := Decimal(uid),
        subject := m.subject.GetOr(NoSubject),
        from := m.from.GetOr(NoSender),
        body := BodyOf(m, htmlText),
        attachments := Attachments(m.root),
        gmailLink := LinkPrefix + Decimal(uid)))
  }

  /** The body falls back in order: a readable text leaf, the root body, the placeholder. */
  lemma BodyFallback(m: Mail, htmlText: string -> string)
    ensures FirstText(Leaves(m.root), htmlText).Some? ==> BodyOf(m, htmlText) == FirstText(Leaves(m.root), htmlText).value
    ensures FirstText(Leaves(m.root), htmlText).None? && m.root.body.Some? ==> BodyOf(m, htmlText) == m.root.body.value
    ensures FirstText(Leaves(m.root), htmlText).None? && m.root.body.None? ==> BodyOf(m, htmlText) == NoBody
  {
    ExtractIsFirstLeafText(m.root, htmlText);
  }

  /** The record `try_alternative_fetch` returns when the message could not be
      read: fixed placeholder texts and no attachments. */
  function PlaceholderEmail(uid: nat): (e: Email)
    ensures ParseDigits(e.uid) == Some(uid)
    ensures e.gmailLink == LinkPrefix + e.uid && e.attachments == []
  {
    DecimalRoundTrip(uid);
    Email(
      uid := Decimal(uid),
      subject := "(제목 파싱 실패)",
      from := "(발신자 파싱 실패)",
      body := "(본문 파싱 실패)",
      attachments := [],
      gmailLink := LinkPrefix + Decimal(uid))
  }
}
