/** The start-up configuration of the three notifier loops, read from the
    environment. All three read the same variables the same way: the mail
    account, the webhook, WORKER_ID and TOTAL_WORKERS are required, and a
    missing or non-numeric one aborts the program (`expect` or `unwrap`);
    CONCURRENCY is optional. The environment is given as optional texts. */
module NotifierConfig {
  import opened Wrappers
  import opened Text

  datatype Env = Env(gmailEmail: Option<string>, gmailPassword: Option<string>,
                     webhook: Option<string>, workerId: Option<string>,
                     totalWorkers: Option<string>, concurrency: Option<string>)

  datatype Settings = Settings(email: string, password: string, webhook: string,
                               workerId: nat, totalWorkers: nat, concurrency: nat)

  /** `u64` values. */
  const U64Limit := 0x1_0000_0000_0000_0000
  /** `usize` values, taking `usize` to be 64 bits wide. */
  const UsizeLimit := 0x1_0000_0000_0000_0000
  const DefaultConcurrency := 4

  /** CONCURRENCY when it parses as a `usize`, 4 otherwise. */
  function Concurrency(text: Option<string>): (r: nat)
    ensures r < UsizeLimit
    ensures text.Some? && ParseUnsigned(text.value, UsizeLimit).Some? ==>
      r == ParseUnsigned(text.value, UsizeLimit).value
    ensures text.None? || ParseUnsigned(text.value, UsizeLimit).None? ==> r == DefaultConcurrency
  {
    match text
    case Some(s) => ParseUnsigned(s, UsizeLimit).GetOr(DefaultConcurrency)
    case None => DefaultConcurrency
  }

  function RequiredNumber(text: Option<string>): (r: Option<nat>)
    ensures r.Some? <==> text.Some? && ParseUnsigned(text.value, U64Limit).Some?
    ensures r.Some? ==> r.value == ParseUnsigned(text.value, U64Limit).value && r.value < U64Limit
  {
    match text
    case Some(s) => ParseUnsigned(s, U64Limit)
    case None => None
  }

  /** The settings, or the start-up abort. Nothing checks that TOTAL_WORKERS
      is positive or that CONCURRENCY is: zero is accepted here. */
  function LoadSettings(env: Env): (r: Result<Settings>)
    ensures r.Ok? <==>
      && env.gmailEmail.Some? && env.gmailPassword.Some? && env.webhook.Some?
      && RequiredNumber(env.workerId).Some? && RequiredNumber(env.totalWorkers).Some?
    ensures r.Ok? ==>
      && r.value.email == env.gmailEmail.value
      && r.value.password == env.gmailPassword.value
      && r.value.webhook == env.webhook.value
      && r.value.workerId == RequiredNumber(env.workerId).value
      && r.value.totalWorkers == RequiredNumber(env.totalWorkers).value
      && r.value.concurrency == Concurrency(env.concurrency)
  {
    if env.gmailEmail.None? then Err("GMAIL_EMAIL required")
    else if env.gmailPassword.None? then Err("GMAIL_PASSWORD required")
    else if env.webhook.None? then Err("DISCORD_WEBHOOK_URL required")
    else match RequiredNumber(env.workerId)
      case None => Err("WORKER_ID must be an integer")
      case Some(workerId) =>
        match RequiredNumber(env.totalWorkers)
        case None => Err("TOTAL_WORKERS must be an integer")
        case Some(total) =>
          Ok(Settings(env.gmailEmail.value, env.gmailPassword.value, env.webhook.value,
                      workerId, total, Concurrency(env.concurrency)))
  }

  /** Worker ids and totals written in decimal load as those numbers. */
  lemma DecimalSettingsLoad(email: string, password: string, webhook: string,
                            workerId: nat, total: nat, concurrency: Option<string>)
    requires workerId < U64Limit && total < U64Limit
    ensures var env := Env(Some(email), Some(password), Some(webhook),
                           Some(Decimal(workerId)), Some(Decimal(total)), concurrency);
      && LoadSettings(env).Ok?
      && LoadSettings(env).value.workerId == workerId
      && LoadSettings(env).value.totalWorkers == total
  {
    ParseUnsignedDecimal(workerId, U64Limit);
    ParseUnsignedDecimal(total, U64Limit);
  }
}
