/**
 * Text the server-settings editor derives from a configuration key: its label,
 * its description, its input type, and the message shown for a failed request.
 */
module ConfigText {
  import opened Wrappers
  import opened Strings
  import opened Json

  /** One test of a key-matching rule. */
  datatype KeyTest = Exact(name: string) | Prefix(p: string) | Suffix(p: string) | Infix(p: string)

  predicate Passes(t: KeyTest, key: string) {
    match t
    case Exact(n) => key == n
    case Prefix(p) => StartsWith(key, p)
    case Suffix(p) => EndsWith(key, p)
    case Infix(p) => Contains(key, p)
  }

  /** A rule matches when any of its tests passes (the tests are joined by `||`). */
  datatype Rule<T> = Rule(tests: seq<KeyTest>, outcome: T)

  predicate RuleMatches<T>(rule: Rule<T>, key: string) {
    exists i :: 0 <= i < |rule.tests| && Passes(rule.tests[i], key)
  }

  /** The index of the first rule that matches `key` (`Array.prototype.find`). */
  function FirstMatch<T>(rules: seq<Rule<T>>, key: string): (r: Option<nat>)
    ensures r.Some? ==> r.value < |rules| && RuleMatches(rules[r.value], key)
    ensures r.Some? ==> forall j :: 0 <= j < r.value ==> !RuleMatches(rules[j], key)
    ensures r.None? <==> forall j :: 0 <= j < |rules| ==> !RuleMatches(rules[j], key)
  {
    if rules == [] then None
    else if RuleMatches(rules[0], key) then Some(0)
    else match FirstMatch(rules[1..], key)
      case None => None
      case Some(i) => Some(i + 1)
  }

  // ------------------------------------------------------------------ labels

  const FieldLabels: map<string, string> := map[
    "BASE_URL" := "Gramps Web base URL",
    "FRONTEND_URL" := "Frontend URL",
    "DEFAULT_FROM_EMAIL" := "From address",
    "EMAIL_HOST" := "SMTP host",
    "EMAIL_PORT" := "SMTP port",
    "EMAIL_HOST_USER" := "SMTP user",
    "EMAIL_HOST_PASSWORD" := "SMTP password",
    "REQUEST_CACHE_CONFIG" := "Request cache config",
    "THUMBNAIL_CACHE_CONFIG" := "Thumbnail cache config",
    "PERSISTENT_CACHE_CONFIG" := "Persistent cache config",
    "REPORT_DIR" := "Report directory",
    "EXPORT_DIR" := "Export directory",
    "DISABLE_TELEMETRY" := "Disable telemetry",
    "RATE_LIMIT_MEDIA_ARCHIVE" := "Media archive rate limit",
    "CELERY_CONFIG" := "Celery queue config",
    "LOG_LEVEL" := "Log level"
  ]

  /** `_label`: the human-readable label, falling back to the key itself. */
  function Label(key: string): (r: string)
    ensures key in FieldLabels ==> r == FieldLabels[key]
    ensures key !in FieldLabels ==> r == key
  {
    if key in FieldLabels && FieldLabels[key] != "" then FieldLabels[key] else key
  }

  // ------------------------------------------------------------ descriptions

  const FieldDescriptions: map<string, string> := map[
    "BASE_URL" := "Used in generated links and e-mails to point users to your server.",
    "FRONTEND_URL" := "Public URL to the web UI.",
    "DEFAULT_FROM_EMAIL" := "Sender address shown in outgoing e-mails.",
    "EMAIL_HOST" := "SMTP server hostname.",
    "EMAIL_PORT" := "SMTP server port.",
    "EMAIL_HOST_USER" := "SMTP username used for authentication.",
    "EMAIL_HOST_PASSWORD" := "SMTP password used for authentication.",
    "EMAIL_USE_SSL" := "Use implicit SSL/TLS for SMTP connection.",
    "EMAIL_USE_STARTTLS" := "Use STARTTLS upgrade on SMTP connection.",
    "EMAIL_USE_TLS" := "Legacy SMTP TLS flag. Prefer EMAIL_USE_SSL or EMAIL_USE_STARTTLS.",
    "TREE" := "Tree mode. Use a fixed tree id or \"*\" for multi-tree mode.",
    "USER_DB_URI" := "Connection string for the user/config database.",
    "SECRET_KEY" := "Server secret used for cryptographic signing.",
    "STATIC_PATH" := "Filesystem path for served frontend static files.",
    "REGISTRATION_DISABLED" := "Disable public user registration endpoints.",
    "LOG_LEVEL" := "Server logging verbosity.",
    "MEDIA_BASE_DIR" := "Base directory where media files are stored.",
    "MEDIA_PREFIX_TREE" := "Prefix media paths with tree id in multi-tree setups.",
    "SEARCH_INDEX_DB_URI" := "Location/URI of the full-text search index database.",
    "SEARCH_INDEX_DIR" := "Deprecated legacy search index directory setting.",
    "REQUEST_CACHE_CONFIG" := "Request-level cache backend and limits.",
    "THUMBNAIL_CACHE_CONFIG" := "Thumbnail cache backend and limits.",
    "PERSISTENT_CACHE_CONFIG" := "Persistent cache backend and limits.",
    "REPORT_DIR" := "Directory for temporary/generated reports.",
    "EXPORT_DIR" := "Directory for exported files.",
    "DISABLE_TELEMETRY" := "Disable anonymous telemetry sending.",
    "LLM_BASE_URL" := "Base URL for the configured LLM provider endpoint.",
    "LLM_MODEL" := "LLM model name used for AI chat.",
    "LLM_MAX_CONTEXT_LENGTH" := "Maximum context length for AI prompts.",
    "LLM_SYSTEM_PROMPT" := "System prompt prepended to AI chat requests.",
    "VECTOR_EMBEDDING_MODEL" := "Embedding model name for semantic search."
  ]

  /** The pattern rules tried, in this order, for a key without an explicit description. */
  const DescriptionRules: seq<Rule<string>> := [
    Rule([Prefix("JWT_")], "JWT authentication/session setting."),
    Rule([Prefix("OIDC_")], "OpenID Connect login/provider setting."),
    Rule([Prefix("EMAIL_")], "Outgoing e-mail (SMTP) setting."),
    Rule([Prefix("CORS_")], "Cross-origin request policy setting."),
    Rule([Prefix("POSTGRES_")], "PostgreSQL connection setting used by database backends."),
    Rule([Infix("CACHE")], "Cache behavior and storage setting."),
    Rule([Prefix("SEARCH_")], "Search/indexing behavior setting."),
    Rule([Prefix("LLM_"), Prefix("VECTOR_")], "AI/semantic search integration setting."),
    Rule([Prefix("RATE_LIMIT_")], "Rate-limiting policy setting."),
    Rule([Suffix("_DIR"), Suffix("_PATH")], "Filesystem path/directory setting."),
    Rule([Suffix("_URI"), Suffix("_URL")], "Network endpoint/URI setting.")
  ]

  const DefaultDescription: string := "Server behavior setting."

  lemma DescriptionTextsNonEmpty()
    ensures forall k :: k in FieldDescriptions ==> FieldDescriptions[k] != ""
    ensures forall i :: 0 <= i < |DescriptionRules| ==> DescriptionRules[i].outcome != ""
  {
  }

  /**
   * The description lookup for any table, rule list and fallback: a non-empty
   * table entry wins; otherwise the first rule that matches supplies it;
   * otherwise the fallback.
   */
  function Describe(table: map<string, string>, rules: seq<Rule<string>>, fallback: string, key: string)
    : (r: string)
    ensures key in table && table[key] != "" ==> r == table[key]
    ensures !(key in table && table[key] != "") ==>
              forall i :: 0 <= i < |rules| && RuleMatches(rules[i], key)
                          && (forall j :: 0 <= j < i ==> !RuleMatches(rules[j], key))
                          ==> r == rules[i].outcome
    ensures (!(key in table && table[key] != "") &&
             forall i :: 0 <= i < |rules| ==> !RuleMatches(rules[i], key)) ==>
              r == fallback
    ensures ((forall k :: k in table ==> table[k] != "") && fallback != "" &&
             forall i :: 0 <= i < |rules| ==> rules[i].outcome != "") ==>
              r != ""
  {
    if key in table && table[key] != "" then table[key]
    else match FirstMatch(rules, key)
      case Some(i) => rules[i].outcome
      case None => fallback
  }

  /**
   * `_description`: an explicit description wins; otherwise the first pattern
   * rule that matches supplies it; otherwise the generic fallback. Every key gets
   * a non-empty description.
   */
  function Description(key: string): (r: string)
    ensures r != ""
  {
    DescriptionTextsNonEmpty();
    Describe(FieldDescriptions, DescriptionRules, DefaultDescription, key)
  }

  /** A key with an explicit description shows exactly that description. */
  lemma DescriptionTableWins(key: string)
    requires key in FieldDescriptions
    ensures Description(key) == FieldDescriptions[key]
  {
    DescriptionTextsNonEmpty();
  }

  // ------------------------------------------------------------------ inputs

  /** `_inputType`: secrets are entered in a password field. */
  function InputType(key: string): (r: string)
    ensures r == "password" <==> Contains(key, "PASSWORD")
    ensures r == "text" <==> !Contains(key, "PASSWORD")
  {
    if Contains(key, "PASSWORD") then "password" else "text"
  }

  /** A key with `PASSWORD` anywhere in its name is masked; the check is case-sensitive. */
  lemma PasswordKeysMasked(before: string, after: string)
    ensures InputType(before + "PASSWORD" + after) == "password"
    ensures InputType("password") == "text"
  {
    var k := before + "PASSWORD" + after;
    assert k[|before|..][..8] == "PASSWORD";
    assert StartsWith(k[|before|..], "PASSWORD");
    assert !Contains("password", "PASSWORD") by {
      forall i | 0 <= i <= 0 ensures !StartsWith("password"[i..], "PASSWORD") {
        assert "password"[0] != "PASSWORD"[0];
      }
    }
  }

  /**
   * `_errorText` followed by the way the save status renders it: falsy errors
   * give no text, strings are shown as they are, an object's `message` is
   * rendered by Lit when it is truthy, and anything else is stringified.
   */
  function ErrorText(error: Json): (r: string)
    ensures !Truthy(error) ==> r == ""
    ensures error.JStr? ==> r == error.s
    ensures error.JObj? && "message" in error.fields && Truthy(error.fields["message"]) ==>
              r == LitText(error.fields["message"])
    ensures error.JObj? && "message" in error.fields && !Truthy(error.fields["message"]) ==> r == ""
    ensures Truthy(error) && !error.JStr? && !(error.JObj? && "message" in error.fields) ==>
              r == ToText(error)
  {
    if !Truthy(error) then ""
    else if error.JStr? then error.s
    else if error.JObj? && "message" in error.fields then
      (if Truthy(error.fields["message"]) then LitText(error.fields["message"]) else "")
    else ToText(error)
  }

  /**
   * An error object carrying a truthy message reads the same as the bare
   * message, unless the message is an array (see `ArrayMessageConcatenated`)
   * or itself an object with a message of its own.
   */
  lemma ErrorMessageUnwrapped(message: Json)
    requires Truthy(message) && !message.JArr? && !(message.JObj? && "message" in message.fields)
    ensures ErrorText(JObj(map["message" := message])) == ErrorText(message)
  {
  }

  /**
   * An array message is shown item after item, while the same array thrown
   * bare is stringified with commas between the items.
   */
  lemma ArrayMessageConcatenated(a: string, b: string)
    ensures ErrorText(JObj(map["message" := JArr([JStr(a), JStr(b)])])) == a + b
    ensures ErrorText(JArr([JStr(a), JStr(b)])) == a + "," + b
  {
    var items := [JStr(a), JStr(b)];
    assert seq(|items|, i requires 0 <= i < |items| => LitText(items[i])) == [a, b];
    assert seq(|items|, i requires 0 <= i < |items| =>
                 if items[i].JNull? then "" else ToText(items[i])) == [a, b];
    assert Join([a, b], "") == a + "" + Join([b], "");
    assert Join([a, b], ",") == a + "," + Join([b], ",");
  }
}
