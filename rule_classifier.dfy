/** The email classifier of `wasm_host/src/lib.rs`. Compiled for wasm32 it
    is a keyword rule: it lower-cases the text, tests keywords in priority
    order and returns one of three fixed results; compiled natively it
    forwards to the OpenAI classifier and maps any error to a fixed result.
    Confidences are opaque constants here; nothing computes with them. */
module RuleClassifier {
  import opened Wrappers
  import opened Text

  type Confidence = real

  datatype CategoryResult = CategoryResult(category: string, confidence: Confidence)

  const Urgent := CategoryResult("긴급", 0.9)
  const Promotion := CategoryResult("홍보", 0.8)
  const Ordinary := CategoryResult("일반", 0.5)
  const Failed := CategoryResult("ERROR", 0.0)

  /** The text the keywords are looked for in. */
  function Haystack(subject: string, body: string): string {
    Lower(subject) + " " + Lower(body)
  }

  predicate UrgentText(txt: string) {
    Contains(txt, "urgent") || Contains(txt, "asap")
  }

  predicate PromotionText(txt: string) {
    Contains(txt, "discount") || Contains(txt, "promo")
  }

  /** The wasm32 `imp::classify`. It never fails. */
  function Classify(subject: string, body: string): (r: CategoryResult)
    ensures r == Urgent || r == Promotion || r == Ordinary
  {
    var txt := Haystack(subject, body);
    if UrgentText(txt) then Urgent
    else if PromotionText(txt) then Promotion
    else Ordinary
  }

  /** A keyword occurs in the subject or in the body, ignoring ASCII case. */
  predicate Mentions(subject: string, body: string, keyword: string) {
    Contains(Lower(subject), keyword) || Contains(Lower(body), keyword)
  }

  /** The rule stated on subject and body separately: since no keyword holds
      a space, joining them with one neither creates nor hides a keyword.
      Urgency is tested first, so it wins over promotion. */
  lemma ClassifyBySubjectOrBody(subject: string, body: string)
    ensures var urgent := Mentions(subject, body, "urgent") || Mentions(subject, body, "asap");
      var promo := Mentions(subject, body, "discount") || Mentions(subject, body, "promo");
      && (Classify(subject, body) == Urgent <==> urgent)
      && (Classify(subject, body) == Promotion <==> !urgent && promo)
      && (Classify(subject, body) == Ordinary <==> !urgent && !promo)
  {
    var a, b := Lower(subject), Lower(body);
    ContainsAcrossSpace(a, b, "urgent");
    ContainsAcrossSpace(a, b, "asap");
    ContainsAcrossSpace(a, b, "discount");
    ContainsAcrossSpace(a, b, "promo");
  }

  /** Matching ignores ASCII case: lower-casing the inputs first changes nothing. */
  lemma ClassifyIgnoresCase(subject: string, body: string)
    ensures Classify(Lower(subject), Lower(body)) == Classify(subject, body)
  {
    LowerIdempotent(subject);
    LowerIdempotent(body);
  }

  /** The example the JavaScript test page runs: a subject with "urgent" and a
      body with "ASAP" are classified urgent. */
  lemma ExampleUrgent()
    ensures Classify("urgent offer", "reply ASAP!") == Urgent
  {
    var txt := Haystack("urgent offer", "reply ASAP!");
    assert txt[0..6] == "urgent";
    assert OccursAt(txt, "urgent", 0);
  }

  /** The native `imp::classify`: the OpenAI result passes through, any error
      becomes the fixed error result. */
  function NativeClassify(reply: Result<(string, Confidence)>): (r: CategoryResult)
    ensures reply.Ok? ==> r.category == reply.value.0 && r.confidence == reply.value.1
    ensures reply.Err? ==> r == Failed
  {
    match reply
    case Ok((category, confidence)) => CategoryResult(category, confidence)
    case Err(_) => Failed
  }
}
