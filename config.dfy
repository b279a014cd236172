/**
 * Process configuration (`process.env`) as a value, and `parseInt` as an
 * opaque parameter: `None` stands for `NaN`.
 */
module Config {
  import opened Wrappers
  import opened Strings

  datatype Env = Env(
    imapHost: Option<string>,
    imapUser: Option<string>,
    imapPass: Option<string>,
    imapPort: Option<string>,
    imapTls: Option<string>,
    syncBatchSize: Option<string>,
    smtpHost: Option<string>,
    smtpUser: Option<string>,
    smtpPass: Option<string>,
    smtpPort: Option<string>,
    smtpSecure: Option<string>,
    smtpFrom: Option<string>,
    emailTo: Option<string>,
    publicEmailAddress: Option<string>,
    siteUrl: Option<string>
  )

  /** `parseInt` is not interpreted: callers pass it in; `None` is `NaN`. */
  type ParseInt = string -> Option<int>

  /** `parseInt(value || fallback)`. */
  function IntSetting(value: Option<string>, fallback: string, parseInt: ParseInt): Option<int> {
    parseInt(OrElse(value, fallback))
  }
}
