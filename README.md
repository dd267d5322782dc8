# Mail triage pipeline — a Dafny model

The system watches a Gmail inbox over IMAP. It reads every UNSEEN message
into a small record: uid, subject, sender, plain-text body, attachment
names and a Gmail link. Several notifier processes split the mail between
them by hashing each uid modulo the number of workers. Each worker keeps
only the mail whose shard equals its own id. For each message it keeps,
it takes a semaphore permit and starts a pipeline: classify the message,
then post a chat alert through a Discord webhook.

There are three notifier loops:
- the `pi_email` notifier marks each owned message `\Seen` before
  classifying it and tags the alert with its worker id;
- the older `master` notifier leaves flags to the reader;
- the `pi_postman_wasm` server uses a 32-bit hash.

Around them sit the following pieces:
- two mailbox readers (`pi_email/common/src/gmail.rs` and `common/src/gmail.rs`);
- two alert builders;
- an OpenAI chat-completions classifier, which pulls a JSON object out of a
  possibly fenced reply;
- a keyword classifier, used in the WebAssembly build;
- an in-memory email store;
- the worker's HTTP client for the classify endpoint.

The Dafny modules follow that structure:

| module | file | models |
|---|---|---|
| `Wrappers` | wrappers.dfy | `Option`, `Result` |
| `Text` | text.dfy | ASCII lowercasing, substring search, `trim_end_matches`, decimal and `u64`/`usize` parsing, Unicode white space |
| `Mime` | mime.dfy | the MIME tree, `extract_plain_body`, `collect_attachments`, `parse_single_email` |
| `Imap` | imap.dfy | the mailbox as the readers see it (a `class` whose flags FETCH and STORE change, after RFC 3501 section 6.4.5 and 6.4.6) |
| `PiGmail` | pi_gmail.dfy | the newer reader: `fetch_unseen_emails`, `fetch_single_email`, `try_alternative_fetch` |
| `CommonGmail` | common_gmail.dfy | the older reader's `fetch_unseen_emails` |
| `Discord` | discord.dfy | the alert text and the result policy of both `send_discord_alert` |
| `RuleClassifier` | rule_classifier.dfy | `imp::classify`, wasm and native branches |
| `OpenAiClassifier` | classifier.dfy | `classify_via_openai`: defaults, prompts, fenced-JSON extraction, error mapping |
| `EmailStore` | email_store.dfy | `EMAIL_STORE`, `process_incoming_email`, `get_email` |
| `ApiClient` | api_client.dfy | `ApiClient::new`, `ApiClient::classify_email` |
| `Shard` | shard.dfy | `hash % total == worker_id` and the partition it induces |
| `Dispatch` | dispatch.dfy | the semaphore and the spawned classify→notify pipelines (a `class`) |
| `NotifierConfig` | config.dfy | start-up configuration of the three loops |
| `Poll` | poll.dfy | the shard-filter-and-dispatch loop the `master` notifier and the server share |
| `PiNotifier`, `MasterNotifier`, `ServerNotifier` | pi_notifier.dfy, master_notifier.dfy, server_notifier.dfy | one poll cycle of each `main` loop (a `class` each) |

## Model

Module and class names are those above. Sources are relative to the
repository root.

| member | source | states |
|---|---|---|
| Text.Lower | wasm_host/src/lib.rs:44 | lowercasing keeps the length, turns each upper-case ASCII letter into its lower-case letter, keeps every other character, and leaves no upper-case ASCII letter |
| Text.LowerIdempotent | wasm_host/src/lib.rs:44 | lowercasing twice is lowercasing once |
| Text.LowerAppend | wasm_host/src/lib.rs:44 | lowercasing distributes over concatenation |
| Text.ContainsAcrossSpace | wasm_host/src/lib.rs:44-52 | a word without a space occurs in `a + " " + b` iff it occurs in `a` or in `b` |
| Text.TrimEndMatches | worker/src/api.rs:27 | the result is a prefix of the input, does not end in the character, and only copies of it were removed |
| Text.TrimEndMatchesIdempotent | worker/src/api.rs:27 | trimming twice is trimming once |
| Text.ParseDigits | pi_email/master/src/notifier.rs:95 | a string parses as a decimal number iff it is nonempty and all digits |
| Text.DecimalRoundTrip | pi_email/common/src/gmail.rs:91 | `uid.to_string()` is a nonempty digit string that parses back to the uid |
| Text.DecimalInjective | pi_email/common/src/gmail.rs:176-177 | distinct uids have distinct decimal texts |
| Text.ParseUnsigned | pi_email/master/src/notifier.rs:26-33 | a parsed `u64`/`usize` value is below the type's limit |
| Text.ParseUnsignedDecimal | pi_email/master/src/notifier.rs:26-33 | every in-range number's decimal text parses to it |
| Mime.Leaves | pi_email/common/src/gmail.rs:38-54 | the leaves of a part in left-to-right pre-order; a leaf is its own only leaf |
| Mime.ExtractIsFirstLeafText | pi_email/common/src/gmail.rs:38-54 | `extract_plain_body` returns what the first leaf in pre-order offers: a text/plain body, or an html body reduced to text |
| Mime.ExtractFromIsFirstLeafText | common/src/gmail.rs:63-88 | the search over the children from index i returns the first offering leaf among their leaves |
| Mime.FirstTextAppend | pi_email/common/src/gmail.rs:45-52 | the first match in `a + b` is the first in `a`, else the first in `b` |
| Mime.AttachmentsBound | pi_email/common/src/gmail.rs:194-205 | at most two names per part are collected |
| Mime.AttachmentsFromBound | common/src/gmail.rs:121-138 | the same bound for the children from index i |
| Mime.CollectAttachments | pi_email/common/src/gmail.rs:191-211 | the new list is the old list followed by the pre-order names: the disposition filename when the lowercased disposition starts with "attachment", then the `name` parameter |
| Mime.ParseSingleEmail | pi_email/common/src/gmail.rs:155-188 | Ok iff the bytes parse. The uid text parses back to the uid. The subject and sender placeholders apply when missing. The body is `BodyOf` the mail: the first readable leaf text, else the root body, else "(본문 없음)" (see BodyFallback). The link is the prefix plus the uid. The attachments are the collected names |
| Mime.BodyFallback | pi_email/common/src/gmail.rs:167-170 | the body is the first leaf text, else the root body, else "(본문 없음)" |
| Mime.PlaceholderEmail | pi_email/common/src/gmail.rs:131-139 | the fallback record carries the uid, the usual link and no attachments |
| Imap.MarkSeen | common/src/gmail.rs:112 | storing `\Seen` keeps the set of messages |
| Imap.MarkSeenTwice | common/src/gmail.rs:112 | a `\Seen` STORE after the `RFC822` FETCH has already set the flag changes nothing more |
| Imap.EmailOfReply | common/src/gmail.rs:48-110 | a record comes back iff the FETCH returned a row whose bytes parse, and its uid text parses to the fetched id |
| Imap.Mailbox.constructor | common/src/gmail.rs:40-43 | the mailbox holds the given messages |
| Imap.Mailbox.UidFetchPeek | pi_email/common/src/gmail.rs:91 | `BODY.PEEK[]` returns the message's answer and changes no flag |
| Imap.Mailbox.UidFetchSections | pi_email/common/src/gmail.rs:128 | the section FETCH returns the answer and sets `\Seen` exactly when a row came back |
| Imap.Mailbox.FetchRfc822 | common/src/gmail.rs:48 | `FETCH RFC822` returns the answer and sets `\Seen` exactly when a row came back |
| Imap.Mailbox.StoreSeen | pi_email/master/src/notifier.rs:95-103 | an id text that is not a number is an error and changes nothing; otherwise only that message gets `\Seen`, unless the server refuses |
| PiGmail.PiFetchOne | pi_email/common/src/gmail.rs:86-120 | what reading one uid yields; a record's uid text parses back to that uid |
| PiGmail.FlagsAfterReading | pi_email/common/src/gmail.rs:56-83 | reading keeps the set of messages |
| PiGmail.MarkSeenKeepsReplies | pi_email/common/src/gmail.rs:68-80 | marking one message seen leaves every message's FETCH answers as they were |
| PiGmail.FlagsAfterReadingStep | pi_email/common/src/gmail.rs:68-80 | reading one more uid adds only that uid's effect |
| PiGmail.CollectedStep | pi_email/common/src/gmail.rs:67-79 | reading one more uid keeps the loop's record: what it yields, if anything, is appended under that uid, uids stay distinct, and every record a read uid yields is present |
| PiGmail.TryAlternativeFetch | pi_email/common/src/gmail.rs:123-152 | a section row gives the placeholder record and stores `\Seen` on that uid, whoever owns it; no row gives Ok(None) and no change |
| PiGmail.FetchSingleEmail | pi_email/common/src/gmail.rs:86-120 | the result is the peek-or-fallback record. Only the fallback changes flags, because the primary mark-seen call is commented out |
| PiGmail.ReadOne | pi_email/common/src/gmail.rs:67-79 | one pass of the loop: the uid's record, if it yields one, is appended (the error arm is never taken), and the flags become those after reading one more uid |
| PiGmail.FetchUnseenEmails | pi_email/common/src/gmail.rs:56-83 | Err iff select or search fails, and then nothing changes. On Ok, each record comes from a distinct UNSEEN uid, every readable UNSEEN uid is present, and the flags are those after reading them all |
| CommonGmail.FlagsAfterReading | common/src/gmail.rs:40-118 | reading keeps the set of messages |
| CommonGmail.FlagsAfterReadingStep | common/src/gmail.rs:46-114 | reading one more id adds only that id's effect |
| CommonGmail.CollectedStep | common/src/gmail.rs:46-114 | reading one more id that was not refused keeps the loop's record: its parsed message, if any, is appended under that id, uids stay distinct, and every parseable message read is present |
| CommonGmail.ReadOne | common/src/gmail.rs:46-114 | one message of the loop: a refused `FETCH RFC822` makes it fail with no change; otherwise a row's record is appended when it parses, the message is stored `\Seen`, and the flags become those after reading one more id |
| CommonGmail.FetchUnseenEmails | common/src/gmail.rs:40-118 | a select or search failure gives Err and no change. Once select and search succeed, the call is Err exactly when the FETCH of some UNSEEN message is refused: one refusal aborts the whole call. On Ok: every message with a body is marked seen, parse failures are absent, uids are distinct and each parses to a searched id, and every parseable UNSEEN message is present |
| Discord.SendResult | pi_email/common/src/discord.rs:40-60 | Err iff the POST fails in transport; a non-2xx status is still Ok |
| Discord.IsSpamIffLowerSpam | pi_email/common/src/discord.rs:19 | the spam test is the ASCII-lowercased category being "spam" |
| Discord.PrefixIffSpam | pi_email/common/src/discord.rs:19-38 | the content starts with "[스팸] " iff the category is spam, and with "📬" otherwise |
| Discord.OpensWithMailbox | pi_email/common/src/discord.rs:20-30 | after the prefix the content always opens with "📬" |
| Discord.CategoryVerbatim | pi_email/common/src/discord.rs:23-37 | the content ends with "\n분류: ", the category unchanged, then the worker line (empty without a worker) |
| Discord.PostmanIsPiWithoutWorker | pi_postman_wasm/common/src/discord.rs:18-29 | the postman content is the pi content with no worker line; a worker only appends its line |
| RuleClassifier.Classify | wasm_host/src/lib.rs:43-53 | the wasm classifier never fails and returns one of the three fixed results |
| RuleClassifier.ClassifyBySubjectOrBody | wasm_host/src/lib.rs:44-52 | the result is Urgent iff the lowercased subject or body mentions "urgent" or "asap". It is Promotion iff neither does and one mentions "discount" or "promo". Otherwise it is Ordinary |
| RuleClassifier.ClassifyIgnoresCase | wasm_host/src/lib.rs:44 | lowercasing the inputs first does not change the result |
| RuleClassifier.ExampleUrgent | test.cjs:4-5 | `classify('urgent offer', 'reply ASAP!')` is ("긴급", 0.9) |
| RuleClassifier.NativeClassify | wasm_host/src/lib.rs:28-35 | a successful result passes through unchanged; any error gives ("ERROR", 0.0) |
| OpenAiClassifier.TimeoutSecs | pi_email/common/src/classifier.rs:26-29 | OPENAI_TIMEOUT when it parses as a `u64`, 60 otherwise |
| OpenAiClassifier.BuildRequest | pi_email/common/src/classifier.rs:21-47 | Err iff OPENAI_API_KEY is missing. The model defaults to "gpt-4.1" and the URL to "https://api.openai.com/v1". The timeout is as above. The system and user prompts are fixed |
| OpenAiClassifier.UserPromptShape | pi_email/common/src/classifier.rs:47 | the user message starts with "제목: " and the subject, ends with the body, and is 9 characters longer than the two |
| OpenAiClassifier.FirstOccurrence | pi_email/common/src/classifier.rs:70-74 | the first occurrence at or after a position, or none |
| OpenAiClassifier.SkipWhitespace | pi_email/common/src/classifier.rs:70-74 | the greedy `\s*`: the first non-white-space position |
| OpenAiClassifier.TrimEndWhitespace | pi_email/common/src/classifier.rs:70-74 | the lazy group gives up its trailing white space to `\s*` |
| OpenAiClassifier.FindCapture | pi_email/common/src/classifier.rs:70-74 | the capture of `` ```json\s*([\s\S]*?)\s*``` ``: it opens at the first "```json", its span starts after the white space and ends at the first later "```" |
| OpenAiClassifier.FenceAfterWhitespace | pi_email/common/src/classifier.rs:70-74 | a closing fence is never inside the skipped white space |
| OpenAiClassifier.CaptureIffFenced | pi_email/common/src/classifier.rs:70-74 | the regex matches iff some "```json" is followed later by "```" |
| OpenAiClassifier.JsonBlockUnfenced | pi_email/common/src/classifier.rs:70-74 | without a fenced block the whole reply is parsed |
| OpenAiClassifier.JsonBlockFenced | pi_email/common/src/classifier.rs:70-74 | with a fenced block, the parsed text is the trimmed span after the opening fence. It has no white space at either end and contains no "```" |
| OpenAiClassifier.TrimmedSpan | pi_email/common/src/classifier.rs:70-74 | the trimmed span is a prefix of the span and what is cut is white space |
| OpenAiClassifier.NoFenceInSpan | pi_email/common/src/classifier.rs:70-74 | a text inside a region with no fence start contains no fence |
| OpenAiClassifier.ReplyText | pi_email/common/src/classifier.rs:63-67 | the first choice's content, or "" when there is none |
| OpenAiClassifier.ClassifyViaOpenAi | pi_email/common/src/classifier.rs:58-82 | Ok iff the key is present, the call replied in time and the extracted text decodes. Ok is exactly the decoded category and confidence |
| OpenAiClassifier.EmptyReplyFails | pi_email/common/src/classifier.rs:63-81 | a reply with no choice or no content is parsed as "" and fails |
| EmailStore.Received | common/src/email.rs:35-47 | a new record is unclassified and not AI-processed |
| EmailStore.Store.constructor | common/src/email.rs:11-13 | the store starts empty |
| EmailStore.Store.ProcessIncomingEmail | common/src/email.rs:27-51 | returns the id. Stores the record under it with the given fields, `category = None` and `ai_processed = false`. Every other entry is unchanged and every record stays keyed by its own id |
| EmailStore.Store.GetEmail | common/src/email.rs:53-61 | Ok iff the id is stored, then exactly the stored record; the store is unchanged |
| EmailStore.LookupAfterInsert | common/src/email.rs:48-59 | after an insert, looking up the new id gives the record and any other id gives what it gave before |
| EmailStore.FreshInsertKeepsRecords | common/src/email.rs:48 | inserting a fresh id grows the key set and rewrites no record |
| ApiClient.New | worker/src/api.rs:24-29 | the stored base is a prefix of the argument, does not end in '/', and only '/' was removed |
| ApiClient.NewStripsOnlySlashes | worker/src/api.rs:27 | the argument is the stored base followed by slashes only; normalising twice changes nothing |
| ApiClient.ClassifyUrlJoin | worker/src/api.rs:44 | the URL is the normalised base followed by "/api/email/classify", with no doubled slash from a trailing one |
| ApiClient.Interpret | worker/src/api.rs:51-61 | Ok iff the response arrived with a 2xx status and its body decodes; Ok is exactly the decoded pair |
| ApiClient.StatusErrorIgnoresBody | worker/src/api.rs:51-53 | a non-2xx status is Err whatever the body |
| ApiClient.ClassifyEmail | worker/src/api.rs:31-62 | the POST goes to the base URL followed by "/api/email/classify" and carries the email id unchanged. The call is Ok iff that POST was answered with a 2xx status whose body decodes, and Ok is exactly the decoded category and confidence |
| Shard.ShardOf | pi_email/master/src/notifier.rs:78-80 | the shard is below `total` and is the remainder of the hash |
| Shard.ExactlyOneOwner | pi_email/master/src/notifier.rs:80-92 | a worker owns a hash iff its id is the shard; ids at or above `total` own nothing; some id below `total` owns it |
| Shard.Owned | master/src/notifier.rs:56-66 | the owned mail is no longer than the list |
| Shard.OwnedSnoc | master/src/notifier.rs:56-66 | one more message is appended iff the worker owns it |
| Shard.OwnedMembers | pi_email/master/src/notifier.rs:77-92 | a message is owned iff it is in the list and its shard is the worker's id |
| Shard.OwnedDisjoint | pi_email/master/src/notifier.rs:78-92 | two distinct workers never own the same message |
| Shard.OwnedBeyondTotal | pi_email/master/src/notifier.rs:78-92 | a worker whose id is at least `total` owns nothing |
| Shard.OwnedCountCons | master/src/notifier.rs:58-66 | workers `0..n` together own one more message exactly when the first message's shard is below n |
| Shard.OwnedPartition | master/src/notifier.rs:58-66 | the owned lists of workers `0..total-1` together have exactly as many messages as the list: each message is dispatched by exactly one worker |
| Shard.OwnedCountEmpty | pi_postman_wasm/master/src/bin/server.rs:37-40 | an empty list gives every worker nothing |
| Shard.OwnedDeterministic | pi_postman_wasm/master/src/bin/server.rs:39-40 | workers whose hashes agree on the mail own the same mail |
| Dispatch.AlertsOf | pi_email/master/src/notifier.rs:113-123 | a pipeline posts one alert after a classification and none after a failure |
| Dispatch.AlertsOnlyAfterClassification | master/src/notifier.rs:74-88 | there are no more alerts than finished pipelines, and each alert is the content for a pipeline that was classified |
| Dispatch.FailedPipelinePostsNothing | pi_postman_wasm/master/src/bin/server.rs:51-59 | a failed classification adds no alert |
| Dispatch.Dispatcher.constructor | pi_email/master/src/notifier.rs:38 | `Semaphore::new(concurrency)`: all permits free, nothing running |
| Dispatch.Dispatcher.Spawn | pi_email/master/src/notifier.rs:106-113 | spawning takes one permit and adds the job to the running and spawned lists |
| Dispatch.Dispatcher.Finish | pi_email/master/src/notifier.rs:113-123 | a finishing pipeline returns its permit on every outcome and adds its alert, if any |
| Dispatch.Dispatcher.Acquire | pi_email/master/src/notifier.rs:106 | `acquire_owned` succeeds iff a permit is free or some pipeline can finish and free one |
| Dispatch.Dispatcher.Launch | master/src/notifier.rs:68-74 | waiting for a permit then spawning: fails only when no permit is free and nothing runs, which needs a semaphore of size 0; on success the job is appended to the spawned jobs |
| Dispatch.InFlightBound | pi_email/master/src/notifier.rs:34-38 | pipelines in flight never exceed `concurrency`; each was spawned; spawned equals running plus finished |
| NotifierConfig.Concurrency | pi_email/master/src/notifier.rs:34-37 | CONCURRENCY when it parses as a `usize`, 4 otherwise |
| NotifierConfig.RequiredNumber | master/src/notifier.rs:26-33 | a required number is present iff the variable is set and parses as a `u64` |
| NotifierConfig.LoadSettings | pi_postman_wasm/master/src/bin/server.rs:18-29 | start-up succeeds iff the three strings are set and WORKER_ID and TOTAL_WORKERS parse, and then carries those values |
| NotifierConfig.DecimalSettingsLoad | pi_email/master/src/notifier.rs:21-38 | decimal worker ids and totals load as those numbers |
| Poll.MineSnoc | master/src/notifier.rs:56-66 | the owned prefix grows by one message iff the worker owns it |
| Poll.StepOwned | master/src/notifier.rs:56-74 | one mail of the loop: owned mail is spawned after its permit, other mail adds nothing; it can only fail with a semaphore of size 0 |
| Poll.DispatchOwned | master/src/notifier.rs:56-89 | panics iff `total` is 0 and there is mail. Blocks only when `concurrency` is 0. Otherwise completes having spawned exactly the owned mail's jobs in order, with no permit or task for other mail |
| PiNotifier.StoreEffect | pi_email/master/src/notifier.rs:95-103 | a flag store keeps the set of messages |
| PiNotifier.StoreAll | pi_email/master/src/notifier.rs:77-103 | the stores of a cycle keep the set of messages |
| PiNotifier.StoreAllMarks | pi_email/master/src/notifier.rs:94-103 | after the stores a message is as before or only seen; it is seen iff it was, or some stored uid names it and the server accepts |
| PiNotifier.PiEvents | pi_email/master/src/notifier.rs:94-113 | two events per owned message |
| PiNotifier.StoredBeforeSpawned | pi_email/master/src/notifier.rs:94-113 | every spawn directly follows the store of the same uid |
| PiNotifier.ForeignMailUntouched | pi_email/master/src/notifier.rs:89-92 | mail owned by no store and not read through the fallback keeps its flags |
| PiNotifier.OwnedMailSeen | pi_email/master/src/notifier.rs:94-103 | an owned message is seen after the cycle unless the server refuses the store |
| PiNotifier.OwnedStep | pi_email/master/src/notifier.rs:77-123 | handling one more owned message adds its job, its two events and its store |
| PiNotifier.Notifier.constructor | pi_email/master/src/notifier.rs:21-38 | the notifier starts with its settings, a fresh semaphore of `concurrency` permits and no history |
| PiNotifier.Notifier.PollCycle | pi_email/master/src/notifier.rs:42-129 | a connect, select or fetch failure spawns nothing and sleeps 10 s. Otherwise the dispatched list is exactly the readable UNSEEN records: each comes from an UNSEEN uid, and every UNSEEN uid that yields a record is in it. The cycle stores `\Seen` on each owned uid before its spawn, spawns exactly the owned jobs and sleeps 10 s. Panics need `total` 0; blocking needs `concurrency` 0 |
| PiNotifier.Notifier.DispatchMail | pi_email/master/src/notifier.rs:77-124 | for each owned message: store `\Seen`, take a permit, spawn; a failed store is only logged and the message is still classified |
| PiNotifier.Notifier.HandleOwned | pi_email/master/src/notifier.rs:94-123 | one owned message: its store, then, when a permit comes, its job and its two events |
| PiNotifier.Notifier.Run | pi_email/master/src/notifier.rs:42-129 | with valid settings the loop never stops; each cycle sleeps 10 s; failing connects spawn nothing |
| MasterNotifier.ReadingMarksForeignMail | common/src/gmail.rs:48-112 | reading marks every UNSEEN message with a body, including mail other workers own: after a cycle it is no longer UNSEEN |
| MasterNotifier.Notifier.constructor | master/src/notifier.rs:19-38 | the notifier starts with its settings and a fresh semaphore of `concurrency` permits |
| MasterNotifier.Notifier.PollCycle | master/src/notifier.rs:42-93 | a connect or fetch failure spawns nothing, leaves the dispatcher unchanged and sleeps 10 s; after a good connect, select and search, the read fails exactly when some UNSEEN message's FETCH is refused. Otherwise the dispatched list is exactly the parseable UNSEEN records: each comes from an UNSEEN id, and every UNSEEN id whose body parses is in it. The flags are the reader's, the loop issues no flag change of its own, and exactly the owned mail is spawned with no worker tag |
| ServerNotifier.Server.constructor | pi_postman_wasm/master/src/bin/server.rs:18-29 | the server starts with its settings, its 32-bit hash and a fresh semaphore |
| ServerNotifier.Server.PollCycle | pi_postman_wasm/master/src/bin/server.rs:33-70 | a connect or fetch error spawns nothing and sleeps 10 s. Otherwise exactly the mail whose `hash32 % total` is the worker id is spawned, and the cycle sleeps 10 s |

## Left out

- Network, TLS and IMAP login (`connect_to_gmail`) are left out; their outcomes are inputs (the `Net` values), as are the webhook's transport outcome and the HTTP responses.
- LOGOUT, and the EXPUNGE after each store, are left out: nothing in the model deletes mail, so EXPUNGE is a no-op here.
- Sleeps and clocks are left out: the 10-second interval is counted in a ghost total, and time stamps are parameters.
- Logging is left out.
- Third-party parsers are parameters: `mailparse` decoding is a parsed `Mail` or None, `scraper`'s HTML-to-text is the function `htmlText`, and `serde_json` decoding of the reply or response is the function `decode`.
- The OpenAI SDK call is the function `call`. Confidences (`f32`) are Dafny `real`s that are only copied.
- FxHash and `fxhash::hash32` are function-valued fields of the notifier classes (`hash`, `hash32`). Only their results modulo `total` matter.
- `to_lowercase` is ASCII lowercasing here; Unicode lowercasing of other characters is not modelled. For the tests the code makes the outcome is the same. Those tests look for "urgent", "asap", "discount", "promo" and "attachment". Only two non-ASCII characters lowercase to text holding an ASCII letter. The Kelvin sign (U+212A) becomes 'k', and no keyword contains 'k'. 'İ' (U+0130) becomes 'i' followed by U+0307. The only keyword with an 'i' is "discount", and there the 'i' is followed by 's', so the combining dot breaks the match.
- Task scheduling is left out. A blocked permit acquire lets some running pipeline finish with some outcome. The order in which spawned pipelines finish is not modelled, and neither is interleaving with the loop.
- Mutex poisoning in `common/src/email.rs` is left out.
- UUID generation in `common/src/email.rs` is left out: the id is a parameter.
- EmailStore.Store.ProcessIncomingEmail: overwrites an existing entry rather than assuming the id is fresh; FreshInsertKeepsRecords states what a fresh id gives.
- An IMAP FETCH that answers with several rows for one id is left out: each id has one answer in the model.
- `common/src/gmail.rs` searches by message sequence number; the model identifies sequence numbers with UIDs.
- HashSet iteration order of the searched ids is any order (the loops pick an arbitrary unread id).
- `common/src/discord.rs` and `common/src/classifier.rs`, which the `master` notifier calls, are not part of this model. Its alert is taken to be the four-argument content without a worker line, and its classifier is the same outcome input.
- `pi_postman_wasm/common/src/gmail.rs` is not part of this model: the server's fetch result is an input.
- MasterNotifier.Notifier.PollCycle, ServerNotifier.Server.PollCycle: each models one cycle of the infinite loop; only the `pi_email` notifier has a `Run` over a finite sequence of cycles.
- PiNotifier.Notifier.Run: models finitely many cycles of the infinite loop, stopping at the first panic or block.
- NotifierConfig.Concurrency: takes `usize` to be 64 bits wide. On a 32-bit target a CONCURRENCY of 2^32 or more would fail to parse and give 4; the model does not capture that.
- An alert's delivery failure is only logged, so it is not part of the recorded history; a posted alert is the content the pipeline sends.
