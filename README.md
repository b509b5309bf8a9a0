# Pterodactyl automated backups, modelled in Dafny

The program asks a Pterodactyl panel to create a backup of each of a list of game
servers, retries the ones that failed once, and e-mails an alert when a retry fails or
when there is nothing to back up. This project models three pieces of it, with Python's behaviour taken from CPython 3.12:

- **The two-pass backup run** (`backup_servers` and `retry_failed_servers`), in
  `backup.dfy`, with its properties in `backup_properties.dfy`. A `Host` object stands
  for the outside world. It holds an outcome oracle `network`: `network(k)` is the
  answer to the k-th POST of the run, either a status code or a `RequestException`. It
  also keeps a ghost log of the events the run causes: POSTs with their URL and
  `Authorization` header, sleeps with their duration, and e-mails with their five
  arguments. The methods `BackupServers`, `FirstPass` and `RetryFailedServers` run the
  loops of the source. They are proved to produce exactly the trace that the
  specification functions `RunTrace`, `FirstPassTrace` and `RetryTrace` describe. The
  lemmas then derive from those functions:
  - who is POSTed to, how many times and in which order;
  - which servers end up in `failed_servers`;
  - how many e-mails are sent;
  - how long each sleep is.
- **The configuration decoders** (`config.py`), in `config.dfy`. Each setting is a pure
  function of the optional text of one environment variable, following Python's `or`,
  `int()` and `str.lower()`. `Load` evaluates them all, in order, as importing the
  module does.
- **The e-mail alert** (`alert.py`), in `alert.dfy`. It covers `_anonymize_email` (a
  split on `@`, then masking the local part) and the part of `EmailAlert.send` that runs
  before any SMTP traffic: the `isinstance` check, the log line with the anonymised
  recipient, and the message with its content and three header fields.

`wrappers.dfy` holds the `Option` and `Result` types that the other modules share.

## Model

| member | source | states |
|---|---|---|
| Config.TextSetting | config.py:22-24 | `API_KEY`, `GET_URL` and `SERVERS_URL` are `""` exactly when unset or empty, and otherwise the raw value |
| Config.ParseInt | config.py:25-26 | `int()` succeeds exactly on an optional sign followed by 1 to 4300 decimal digits, and refuses any longer literal; a `-` literal gives a value of at most 0, any other gives at least 0 |
| Config.ParseIntToString | config.py:25-26 | `int(str(n)) == n` for every integer `n` of at most 4300 digits: decimal text reads back to the number |
| Config.ParseIntOfPadded | config.py:25-26 | `int()` reads a sign (none, `+` or `-`), any number `k` of leading zeros and the decimal text of `n`, for 4300 digits in all, as `n`, or `-n` after a `-`; so `"05"` and `"+5"` give 5, `"-05"` gives -5 and `"-0"` gives 0 |
| Config.LiteralShape | config.py:25-26 | every literal `int()` accepts is a sign, some leading zeros and the decimal text of a natural number, within the digit limit; with `Config.ParseIntOfPadded` this fixes the value of every accepted literal |
| Config.IntSettingsOfPadded | config.py:25-26 | `MAX_RETRIES` or `RETRY_BACKOFF_FACTOR` set to a sign, leading zeros and the decimal text of `n` decodes to `n`, or `-n` after a `-`, and to the fallback 5 or 1 when `n` is 0 |
| Config.TooManyDigitsRefused | config.py:25-26 | a literal of more than 4300 digits is refused, so `MAX_RETRIES` or `RETRY_BACKOFF_FACTOR` set to one is an error |
| Config.IntSetting | config.py:25-26 | `int(text or default) or fallback`: an error exactly when the set value is not an integer literal, with the variable name and text; never 0; the default when unset; the fallback when the value parses to 0; otherwise the parsed value |
| Config.MaxRetries | config.py:25 | `MAX_RETRIES` is 5 when unset or empty, and 5 when it parses to 0; otherwise it is the parsed integer, and never 0; a non-integer value is an error |
| Config.MaxRetriesOfDecimal | config.py:25 | `MAX_RETRIES` set to the decimal text of an `n` of at most 4300 digits decodes to `n`, or to 5 when `n` is 0 |
| Config.RetryBackoffFactor | config.py:26 | `RETRY_BACKOFF_FACTOR` is 1 when unset, empty or parsing to 0; otherwise it is the parsed integer, and never 0; a non-integer value is an error |
| Config.RetryBackoffFactorOfDecimal | config.py:26 | `RETRY_BACKOFF_FACTOR` set to the decimal text of an `n` of at most 4300 digits decodes to `n`, or to 1 when `n` is 0 |
| Config.LowerIdempotent | config.py:27-28 | lowercasing leaves no ASCII capital behind, so lowercasing twice is lowercasing once |
| Config.LowerIsTrue | config.py:27-28 | a value lowercases to `"true"` exactly when it is a four-letter spelling of "true" in any mix of cases |
| Config.Flag | config.py:27-28 | `(str(v or "").lower() or default) == "true"` is the default when unset or empty, otherwise whether the lowercased value is `"true"` |
| Config.SendEmails | config.py:27 | `SEND_EMAILS` is true exactly when unset, empty, or a case-insensitive `"true"` |
| Config.Rotate | config.py:28 | `ROTATE` is true exactly when set to a case-insensitive `"true"`, and so false when unset or empty |
| Config.LogLevel | config.py:30 | `LOG_LEVEL` is `"ERROR"` when unset or empty, otherwise the raw value; it is never empty |
| Config.Load | config.py:22-34 | importing fails exactly when `MAX_RETRIES` or `RETRY_BACKOFF_FACTOR` is not an integer literal; the error is `MAX_RETRIES`'s when it is invalid, and `RETRY_BACKOFF_FACTOR`'s when only that one is; otherwise each exported setting is its decoder applied to its variable, `POST_BACKUP_SCRIPT` and the e-mail settings are passed through unchanged, and both integer settings are non-zero |
| Alert.Split | alert.py:21 | `s.split(sep)` yields one more part than `s` has separators, and no part holds the separator |
| Alert.JoinSplit | alert.py:21 | joining the parts of `s.split(sep)` with `sep` gives back `s` |
| Alert.SplitAtOnly | alert.py:21 | with a single separator at index k, the split is exactly the text before k and the text after it |
| Alert.AtIndex | alert.py:21 | the index of the first `@`, or the length when there is none: no `@` before it, an `@` at it |
| Alert.AnonymizeEmail | alert.py:20-22 | succeeds exactly when the address has one `@`; otherwise it fails with the ValueError that unpacking raises for too few or too many parts. On success the result has the input's length, a `*` for every character of the local part, the `@`, and the input's domain unchanged |
| Alert.OnlyAt | alert.py:21 | in an address with exactly one `@`, no `@` follows the first one |
| Alert.AnonymizeIdempotent | alert.py:21-22 | anonymising an anonymised address gives it back unchanged |
| Alert.AnonymizeHidesLocalPart | alert.py:22 | two addresses with local parts of the same length and the same domain anonymise to the same text |
| Alert.RStrip | alert.py:35 | `body.rstrip()` is a prefix of `body`, everything it drops is whitespace in Python's sense, and it does not end in whitespace |
| Alert.EmailMessage.constructor | alert.py:34 | a new message has no content and no headers |
| Alert.EmailMessage.SetContent | alert.py:35 | `set_content` sets the content and leaves the headers alone |
| Alert.FirstBreak | alert.py:36-38 | the index of the first character `splitlines()` breaks at, or the length when there is none |
| Alert.MoreThanOneLine | alert.py:36-38 | `value.splitlines()` has more than one line exactly when some line break (a CR LF pair counting as one) is followed by more text |
| Alert.FinalNewlineIsOneLine | alert.py:36-38 | a single line followed by one newline is still one line, so such a header value is accepted |
| Alert.NewlineBeforeTextIsTwoLines | alert.py:36-38 | a newline followed by more text gives a second line, so such a header value is refused |
| Alert.EmailMessage.SetHeader | alert.py:36-38 | `msg[name] = value` raises "Header values may not contain linefeed or carriage return characters" and stores nothing exactly when the value splits into more than one line; otherwise it appends that header field. The content is left alone either way |
| Alert.EmailAlert.constructor | alert.py:13-15 | the alert keeps the sender address and password read from the environment |
| Alert.EmailAlert.Send | alert.py:24-38 | raises "All parameters must be of type str" when any of the five strings is missing, and raises the unpacking ValueError when the recipient does not have exactly one `@`; neither case logs anything or builds a message. Otherwise it logs the anonymised recipient, and then raises the header ValueError when the subject, sender or recipient splits into more than one line. When none does, it returns a new message whose content is the right-stripped body and whose headers are Subject, From and To, in that order |
| Backup.Host.Post | backup.py:36 | `requests.post` answers with the oracle's outcome for the next POST of the run, and logs the POST with its URL and header |
| Backup.Host.Sleep | backup.py:40 | `time.sleep` logs a pause of the given length and issues no POST |
| Backup.Host.SendEmail | backup.py:20-26 | `send_email` logs one e-mail with its five arguments and issues no POST |
| Backup.BackupOne | backup.py:31-48 | one step of the first loop: a POST to `BACKUPS_URL + server_id + "/backups"`, then a 3-second pause after a 200 or a 30-second pause after any other status or an exception; it reports whether the POST answered 200 |
| Backup.FirstPass | backup.py:16-48 | the first loop returns exactly the servers whose POST did not answer 200, and logs exactly `FirstPassTrace`, one POST and one pause per listed server, in list order |
| Backup.RetryOne | backup.py:55-80 | one step of the retry loop: a POST to the server's URL, then a 5-second pause after a 200, or one e-mail and no pause after any other status or an exception |
| Backup.RetryFailedServers | backup.py:52-80 | the retry loop logs exactly `RetryTrace`, one POST per failed server, in order, each followed by a pause or an e-mail |
| Backup.BackupServers | backup.py:15-50 | the whole run logs exactly `RunTrace`: a single e-mail for a missing or empty list, otherwise the first pass followed by the retry pass over its failures. The number of POSTs is the list length plus the number of failures |
| BackupProperties.EmptyListEmailsOnce | backup.py:18-27 | a missing or empty server list sends exactly one e-mail and POSTs nothing |
| BackupProperties.FirstPassShape | backup.py:29-48 | the first pass is, for the i-th listed server, a POST to its URL followed by a 3-second pause when that POST answered 200 and a 30-second pause otherwise |
| BackupProperties.FirstPassPostedUrls | backup.py:29-36 | the first pass POSTs once per list entry, in list order, to `BACKUPS_URL + server_id + "/backups"` |
| BackupProperties.FirstPassSendsNoEmail | backup.py:29-48 | the first pass sends no e-mail |
| BackupProperties.FirstPassPostsTo | backup.py:29-36 | in the first pass a server's URL is POSTed to as many times as the server is listed |
| BackupProperties.EndpointInjective | backup.py:31-33 | two servers have the same backups URL only if they are the same server |
| BackupProperties.FailedPositionsExact | backup.py:38-48 | the failing positions of the first pass are increasing and in range, and a position is among them exactly when its POST did not answer 200 |
| BackupProperties.FailuresAreFailedPositions | backup.py:29-47 | `failed_servers` is the subsequence of the server list at the failing positions, in input order |
| BackupProperties.FailedIffFirstPostFailed | backup.py:38-48 | a server is in `failed_servers` exactly when one of its first-pass POSTs did not answer 200; a server whose POSTs all answered 200 never appears |
| BackupProperties.FailuresOfDistinct | backup.py:38-48 | in a list without repeats, a server is in `failed_servers` once if its POST failed and not at all if it answered 200 |
| BackupProperties.FailuresAtMostListed | backup.py:29-47 | a server appears in `failed_servers` at most as often as it is listed |
| BackupProperties.RetryShape | backup.py:53-80 | the retry pass is, for the j-th failed server, a POST to its URL followed by a 5-second pause after a 200, or by one e-mail and no pause otherwise |
| BackupProperties.RetryPostedUrls | backup.py:53-58 | the retry pass POSTs once to each failed server's URL, in order |
| BackupProperties.RetryPostsTo | backup.py:53-58 | in the retry pass a server's URL is POSTed to as many times as the server is in `failed_servers` |
| BackupProperties.RetryEmails | backup.py:60-80 | the retry pass sends one e-mail per retry that did not answer 200 |
| BackupProperties.NoFailedPositions | backup.py:60-80 | there is no failing retry exactly when every retry POST answered 200 |
| BackupProperties.RunPostsInOrder | backup.py:29-58 | a run POSTs to every listed server in list order, then to every first-pass failure in order, and to nothing else |
| BackupProperties.RunEmails | backup.py:29-80 | a run over a non-empty list sends one e-mail per failed retry and none in the first pass, so none at all exactly when every retry answers 200 |
| BackupProperties.RunPostsPerServer | backup.py:29-58 | a server gets one POST per listing plus one per first-pass failure, so at most twice as many as its listings |
| BackupProperties.DistinctServersPostedOnceOrTwice | backup.py:29-58 | in a list without repeats, a server whose first POST answered 200 gets exactly one POST and any other gets exactly two |
| BackupProperties.UnlistedNeverPosted | backup.py:29-58 | a server that is not listed is never POSTed to |

## Left out

- HTTP: `requests.post` (backup.py:36,58) is replaced by the outcome oracle. The session, adapter and urllib3 retry backoff of api_request.py are library behaviour that is not part of this model.
- api_request.py's `request` is not part of this model. It is a thin wrapper over the HTTP session, and its retry loop never makes a second attempt.
- The server list is an input to `BackupServers`. At backup.py:82 it comes from `make_request`, which the shown api_request.py does not define.
- The e-mail in backup.py is `send_email`, which alert.py does not define. It is modelled as an abstract "e-mail sent" event carrying its five arguments, not as a call to `EmailAlert.send`.
- SMTP transport (alert.py:40-58): the connection, TLS, login, sending and the exceptions it swallows. The model of `send` ends with the built message.
- `EmailAlert.__init__` reading `SMTP_SERVER` and `int(SMTP_PORT)` (alert.py:16-17) belongs to the SMTP transport and is left out.
- common.py (logging configuration, `notify_error`, `_check_required`) and setup.py (log handlers) are not part of this model.
- Logging is left out except for send's "Preparing to send email to …" line (alert.py:31), which is where the anonymiser is used. The backup run's log lines and the text of exceptions are not modelled.
- Real sleeping, dotenv loading and process exit are left out. Sleeps are events that record their duration.
- Backup.BackupServers: requires `BACKUPS_URL` to be set when the list is non-empty. When it is unset, the source evaluates `None + server_id` (backup.py:32), which raises an uncaught TypeError and ends the run.
- Backup.FirstPass, Backup.RetryFailedServers: a non-200 status and a `RequestException` are one branch in the model, because their effects (failure list, pause, e-mail) are the same. Only their log text differs, and it is not modelled.
- Backup.Host: the event log is ghost state. Only the number of POSTs so far, which indexes the oracle, is real state.
- Config.ParseInt: accepts only an optional sign followed by ASCII digits. Python's `int()` also allows surrounding whitespace, underscores between digits and non-ASCII digits. The limit of 4300 digits is CPython 3.12's default; `PYTHONINTMAXSTRDIGITS` or `sys.set_int_max_str_digits` can change it, and the model keeps the default.
- Alert.AnonymizeEmail: the error messages are those of CPython 3.12, "not enough values to unpack (expected 2, got 1)" and "too many values to unpack (expected 2)". Other CPython versions may word them differently, but they raise the same ValueError in the same cases.
- Config.Lower: lowercases ASCII letters only, where Python's `str.lower()` covers all of Unicode.
- Alert.EmailMessage.SetContent: the line-ending normalisation and the final newline that `set_content` gives the text are not modelled; the content is the text as passed.
- Alert.EmailMessage.SetHeader: the limit of one Subject, From and To header per message is not modelled, because send sets each of them once on a new message. The parsing of a value into a structured header, addresses included, is not modelled either.
- Alert.EmailMessage.SetContent: the MIME headers (`Content-Type`, `Content-Transfer-Encoding`, `MIME-Version`) that `set_content` adds are not modelled.
- Alert.EmailAlert.Send: a value that is not a `str` is modelled as a missing one (`None`). Every value reaching `send` is either a string or None.
- Rotation, pagination, completion polling and the post-backup hook are not behaviour of these files. `ROTATE` and `POST_BACKUP_SCRIPT` are only decoded.
