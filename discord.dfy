/** The chat alert: its text, built by `send_discord_alert` in
    `pi_email/common/src/discord.rs` (with an optional worker line) and in
    `pi_postman_wasm/common/src/discord.rs` (without one), and the result
    policy shared by both. */
module Discord {
  import opened Wrappers
  import opened Text

  const SpamLabel := "SPAM"
  const SpamPrefix := "[스팸] "
  const Header := "📬 메일 알림\n제목: "
  const SenderLine := "\n보낸이: "
  const CategoryLine := "\n분류: "
  const WorkerLine := "\n처리자: "

  /** The category is the spam label, ignoring ASCII case. */
  predicate IsSpam(category: string) {
    EqIgnoreAsciiCase(category, SpamLabel)
  }

  function Prefix(category: string): string {
    if IsSpam(category) then SpamPrefix else ""
  }

  /** `worker_info`: a line naming the worker, or nothing. */
  function WorkerInfo(workerId: Option<string>): string {
    match workerId
    case Some(id) => WorkerLine + id
    case None => ""
  }

  /** The lines after the prefix: header with subject, sender, category. */
  function Lines(subject: string, sender: string, category: string): string {
    Header + subject + SenderLine + sender + CategoryLine + category
  }

  /** The message content of the `pi_email` alert. */
  function AlertContent(subject: string, sender: string, category: string, workerId: Option<string>): string {
    Prefix(category) + Lines(subject, sender, category) + WorkerInfo(workerId)
  }

  /** The message content of the `pi_postman_wasm` alert: no worker line. */
  function PostmanAlertContent(subject: string, sender: string, category: string): string {
    Prefix(category) + Lines(subject, sender, category)
  }

  /** How the webhook POST ended. */
  datatype Delivery = TransportError | Status(code: nat)

  /** The result of `send_discord_alert`: an error only when the request
      could not be sent; any HTTP status, success or not, is only logged. */
  function SendResult(delivery: Delivery): (r: Result<()>)
    ensures r.Err? <==> delivery.TransportError?
  {
    match delivery
    case TransportError => Err("webhook request failed")
    case Status(_) => Ok(())
  }

  /** The spam test is the ASCII-lower-cased category being "spam". */
  lemma IsSpamIffLowerSpam(category: string)
    ensures IsSpam(category) <==> Lower(category) == "spam"
  {
    assert Lower(SpamLabel) == "spam";
  }

  /** The content opens with the spam prefix exactly when the category is
      spam-like, and otherwise opens with the mailbox emoji. */
  lemma PrefixIffSpam(subject: string, sender: string, category: string, workerId: Option<string>)
    ensures var c := AlertContent(subject, sender, category, workerId);
      (StartsWith(c, SpamPrefix) <==> IsSpam(category))
      && (!IsSpam(category) ==> StartsWith(c, "📬"))
  {
    var rest := Lines(subject, sender, category) + WorkerInfo(workerId);
    OpensWithMailbox(subject, sender, category, workerId);
    assert AlertContent(subject, sender, category, workerId) == Prefix(category) + rest;
    if !IsSpam(category) {
      assert SpamPrefix[0] == '[';
    }
  }

  /** After the prefix, the content opens with the mailbox emoji. */
  lemma OpensWithMailbox(subject: string, sender: string, category: string, workerId: Option<string>)
    ensures var rest := Lines(subject, sender, category) + WorkerInfo(workerId);
      StartsWith(rest, "📬") && rest[0] == '📬'
  {
    var lines := Lines(subject, sender, category);
    assert lines == Header + (subject + SenderLine + sender + CategoryLine + category);
    assert lines[0] == Header[0] == '📬';
    assert (lines + WorkerInfo(workerId))[..1] == "📬";
  }

  /** The category is embedded verbatim: without a worker line the content
      ends with the category line holding the category exactly as given, and
      with one the worker line follows it. */
  lemma CategoryVerbatim(subject: string, sender: string, category: string, workerId: Option<string>)
    ensures var c := AlertContent(subject, sender, category, workerId);
      var tail := CategoryLine + category + WorkerInfo(workerId);
      |tail| <= |c| && c[|c| - |tail|..] == tail
  {
    var head := Prefix(category) + (Header + subject + SenderLine + sender);
    var line := CategoryLine + category;
    var w := WorkerInfo(workerId);
    assert Lines(subject, sender, category) == (Header + subject + SenderLine + sender) + line;
    assert Prefix(category) + Lines(subject, sender, category) == head + line;
    assert (head + line) + w == head + (line + w);
    assert (head + (line + w))[|head|..] == line + w;
  }

  /** The two alert texts agree except for the worker line. */
  lemma PostmanIsPiWithoutWorker(subject: string, sender: string, category: string, workerId: Option<string>)
    ensures AlertContent(subject, sender, category, None) == PostmanAlertContent(subject, sender, category)
    ensures AlertContent(subject, sender, category, workerId)
         == PostmanAlertContent(subject, sender, category) + WorkerInfo(workerId)
  {
  }
}
