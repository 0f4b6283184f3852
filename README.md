# mail2slack in Dafny

`mail2slack.py` reads the unseen messages of an IMAP folder and posts each
one to a Slack webhook. This project models the script's core and proves
properties of it:

- **Body selection** (`get_text`). A MIME message is an immutable tree
  (`Mime.Part`). `walk()` is a pre-order listing of that tree (`Mime.Walk`).
  The script's loop is modelled literally twice, as a function over the walk
  (`Selector.WalkSelect`) and as a method (`Selector.GetText`). Both are
  proved equal to a three-case recursive reading (`Selector.Select`):
  - a text part gives itself;
  - a `multipart/alternative` group gives the first result of its children,
    last to first (section 5.1.4 of RFC 2046);
  - any other part gives the first result of its children, in order.
- **Payload formatting** (`Formatter`):
  - the sender is the last whitespace-separated token of `From`, with Python's
    `str.split()` semantics;
  - every `"` in the body becomes `\"`;
  - the payload is the hand-built template with the configuration values, the
    sender, the subject, the escaped body and the decimal time stamp spliced
    between fixed stretches of text. The template is compared as a string,
    not as JSON: it writes `"short": False`.
- **Run control** (`Session`, `Processor`, `Runs`).
  - The IMAP session, the HTTP endpoint and the clock are one `Session.Env`
    object. It answers from a fixed `Script` of replies and appends every
    call to an event trace.
  - `send_slack_message`, `process_mailbox` and the login/select/close/logout
    part of `process_alert` are methods over that object. Each method is
    proved to append exactly the events, and end with exactly the outcome, of
    a pure function (`SendEvents`, `MessageRun`, `BatchRun`, `MailboxRun`,
    `AlertRun`). Each is also proved to leave the clock where that function
    says: `send_slack_message` leaves it unchanged, and `process_alert` leaves
    it where the mailbox pass does, or unchanged when no folder was selected.
  - The ordering and counting rules are lemmas about those functions in
    `Runs`.

An exception the script does not catch is modelled as a value:
- `Formatter.FormatError` says why formatting raises;
- `Processor.MailboxOutcome.Raised` carries it out of the mailbox pass;
- `Processor.RunResult.Crashed` means `process_alert` ends without `close`
  and `logout`.

Two behaviours of the script are easy to misread:

- A message with no text part does not get an empty body. `get_text`
  returns `None`, and `content[1]` at mail2slack.py:80 raises. The model
  gives `NoTextPart`, and the run crashes.
- The quote escaping is not idempotent. `EscapeTwiceIff` proves that
  escaping twice equals escaping once exactly when the body has no quote.

Files: `wrappers.dfy` (Option, Result), `strings.dfy` (split, decimal,
substring), `mime.dfy`, `selector.dfy`, `formatter.dfy`, `session.dfy`,
`processor.dfy`, `runs.dfy`.

## Model

| member | source | states |
|---|---|---|
| Mime.Walk | mail2slack.py:42 | `walk()` starts with the node itself and lists the node before its descendants |
| Mime.WalkNodes | mail2slack.py:42 | every node of the walk of a well-formed tree is well-formed and no larger than the root |
| Mime.AlternativeIsContainer | mail2slack.py:47-49 | a well-formed (`Mime.WellFormed`) `multipart/alternative` node has a list of children, so `reversed(part.get_payload())` has parts to scan |
| Selector.Select | mail2slack.py:39-54 | the three-case recursive reading of `get_text` (no contract of its own; SelectIsWalkSelect and GetText tie it to the loop) |
| Selector.FirstSelect | mail2slack.py:42-53 | the first result among the children in order (no contract of its own; FirstSelectNone, FirstSelectHit and FirstSelectSkips state it) |
| Selector.LastSelect | mail2slack.py:49-52 | the first result among the children from the last one back (no contract of its own; LastSelectIsReversed, LastSelectNone, LastSelectHit and LastSelectSkips state it) |
| Selector.WalkSelect | mail2slack.py:42-54 | the `for part in message.walk()` loop as a function over the walk (no contract of its own; SelectIsWalkSelect and WalkSelectAppend state it) |
| Selector.SelectIsWalkSelect | mail2slack.py:39-54 | the literal walk loop returns what the three-case recursive selection returns, for every well-formed tree (`Mime.WellFormed`) |
| Selector.WalkAllSelect | mail2slack.py:39-54 | the walk loop over a run of sibling subtrees returns the first result among them, in order |
| Selector.GetText | mail2slack.py:39-54 | the method with the nested loops (walk, then reversed alternatives with a recursive call) returns exactly `Select(m)` |
| Selector.WalkSelectAppend | mail2slack.py:42-53 | the walk loop over two stretches of nodes returns the first stretch's result if it has one, otherwise the second's |
| Selector.SelectNoneIffNoText | mail2slack.py:42-54 | `get_text` returns `None` exactly when no node of the tree has major type `text` |
| Selector.SelectFromTextLeaf | mail2slack.py:43-46 | a returned pair is the content type and payload of some text leaf of the tree |
| Selector.RootText | mail2slack.py:42-46 | a text part at the root is returned whatever else the message holds |
| Selector.NoAlternativeFirstText | mail2slack.py:42-53 | without alternative groups the result is the first text node in pre-order |
| Selector.WalkSelectIsFirstText | mail2slack.py:42-53 | the walk loop over nodes none of which is an alternative group returns the first text node |
| Selector.LastSelectIsReversed | mail2slack.py:49 | scanning the children from the end equals scanning `reversed(children)` from the front |
| Selector.FirstSelectNone | mail2slack.py:53-54 | the in-order scan finds nothing exactly when no child yields a result |
| Selector.LastSelectNone | mail2slack.py:49-52 | the reversed scan finds nothing exactly when no child yields a result |
| Selector.FirstSelectHit | mail2slack.py:53 | an in-order result is the result of one of the children |
| Selector.LastSelectHit | mail2slack.py:49-52 | a reversed-scan result is the result of one of the children |
| Selector.FirstSelectSkips | mail2slack.py:53 | children before the first one that yields a result are skipped |
| Selector.LastSelectSkips | mail2slack.py:49-52 | in an alternative group, the last child that yields a result wins over earlier ones |
| Selector.AlternativePlainHtml | mail2slack.py:47-52 | `multipart/alternative` of [text/plain, text/html] gives the text/html part |
| Selector.MixedAttachmentThenText | mail2slack.py:42-53 | `multipart/mixed` of [non-text attachment, text/plain] gives the text part |
| Strings.Split | mail2slack.py:65-76 | `str.split()`, used on the id list at :65 and on `From` at :76: every token is a non-empty run without whitespace |
| Strings.SplitCons | mail2slack.py:65-76 | leading whitespace is skipped and a whitespace-free run ended by whitespace or the end of the string is the first token, the rest split the same way; with SplitEmptyIff this fixes the split of every string, so the ids fetched at :65 are exactly the maximal runs |
| Strings.SplitKeepsText | mail2slack.py:76 | the tokens joined together are the header with its whitespace removed, in order |
| Strings.SplitEmptyIff | mail2slack.py:76 | the split is empty exactly when the header is all whitespace |
| Strings.SplitLastToken | mail2slack.py:76 | the last token is a maximal non-whitespace run followed only by whitespace |
| Strings.LastTokenUnique | mail2slack.py:76 | there is only one such last run |
| Strings.Decimal | mail2slack.py:107 | `str(n)` is a non-empty string of digits without a leading zero |
| Strings.DecimalRoundTrip | mail2slack.py:107 | the decimal string denotes the number it came from |
| Formatter.Sender | mail2slack.py:76 | `split()[-1]` fails exactly on an all-whitespace header; otherwise it is the last whitespace-delimited run of the header |
| Formatter.SenderOfNamedAddress | mail2slack.py:76 | `Display Name <address>` gives `<address>` |
| Formatter.Escape | mail2slack.py:95 | `replace('"', '\\"')` character by character (no contract of its own; the Escape lemmas below state it) |
| Formatter.EscapeLength | mail2slack.py:95 | the escaped body is longer by the number of quotes |
| Formatter.EscapedQuotesArePreceded | mail2slack.py:95 | every `"` of the escaped body has a `\` right before it |
| Formatter.EscapeHead | mail2slack.py:95 | the escaped body never starts with `"` |
| Formatter.UnescapeEscape | mail2slack.py:95 | deleting the backslash before each quote gives back the body |
| Formatter.EscapeInjective | mail2slack.py:95 | distinct bodies escape differently |
| Formatter.EscapeUnchangedIff | mail2slack.py:95 | escaping leaves a body unchanged exactly when it has no quote |
| Formatter.EscapeTwiceIff | mail2slack.py:95 | escaping twice equals escaping once exactly when the body has no quote: the escape is not idempotent |
| Formatter.EscapeKeepsQuote | mail2slack.py:95 | a body with a quote still has one after escaping |
| Formatter.EscapeAppend | mail2slack.py:95 | the escape works character by character, so it distributes over concatenation |
| Formatter.EscapeQuoted | mail2slack.py:95 | `He said "hi"` is sent as `He said \"hi\"`: only the quotes change |
| Formatter.Template | mail2slack.py:82-110 | the pieces of `slack_msg` in order: fixed stretches of text with the padding the continuation lines leave, and the spliced values (no contract of its own; the Payload lemmas state it) |
| Formatter.Payload | mail2slack.py:82-110 | the concatenation of the template pieces (no contract of its own; the Payload lemmas state it) |
| Formatter.PayloadOpening | mail2slack.py:82-83 | the payload starts with `{` and 59 spaces, then the `username` field with the configured sender |
| Formatter.PayloadFields | mail2slack.py:82-110 | the payload holds `"username"`, `"icon_url"`, `"fallback"`, `"author_name"`, `"title"` with their values verbatim, `"text"` with the escaped body, the constants color `warning`, value `Medium`, footer `Slack API`, and `"ts": ` followed by the decimal time |
| Formatter.ColorConstant | mail2slack.py:88 | the fixed stretch after the fallback carries `"color": "warning"` |
| Formatter.FooterConstants | mail2slack.py:96-105 | the fixed stretch after the text carries `"value": "Medium"` and `"footer": "Slack API"` |
| Formatter.PriorityValue | mail2slack.py:99 | the fixed stretch after the text carries `"value": "Medium"` |
| Formatter.FooterName | mail2slack.py:105 | the fixed stretch after the text carries `"footer": "Slack API"` |
| Formatter.PayloadSplit | mail2slack.py:82-110 | the payload is the header part, the text field, the fixed fields, the time stamp and the closing text, in that order |
| Formatter.PayloadDeterminesBody | mail2slack.py:95 | two payloads with the same headers and time are equal only if the bodies are |
| Formatter.PayloadDeterminesTime | mail2slack.py:107 | two payloads of the same message are equal only if the time stamps are |
| Formatter.FormatMessage | mail2slack.py:76-110 | sender, body, subject, then the template, raising where the script raises (no contract of its own; FormatOutcome states the raise order and the success condition, PlainAlert a concrete case) |
| Formatter.FormatOutcome | mail2slack.py:76-110 | a missing `From` raises first, then a blank `From`, then a missing text part, then a missing `Subject`; formatting succeeds exactly when `From` has a token, some part is text and `Subject` is present |
| Formatter.PlainAlert | mail2slack.py:76-110 | for `Name <addr>`, a subject and a quote-free text/plain body, the payload has sender `<addr>`, the subject and the body unchanged |
| Session.Env.constructor | mail2slack.py:167 | a fresh session has an empty trace and the given start time |
| Session.Env.Connect | mail2slack.py:167 | `IMAP4_SSL(host)` appends a connect event |
| Session.Env.Login | mail2slack.py:170 | `login` appends a login event and reports whether it was accepted |
| Session.Env.SelectFolder | mail2slack.py:175 | `select` appends its event and returns the scripted status |
| Session.Env.Search | mail2slack.py:60 | `search(None, "UNSEEN")` appends its event and returns the scripted status and ids |
| Session.Env.Fetch | mail2slack.py:67-72 | `fetch` appends its event and returns the scripted status and parsed message |
| Session.Env.Close | mail2slack.py:181 | `close` appends its event |
| Session.Env.Logout | mail2slack.py:186 | `logout` appends its event |
| Session.Env.Post | mail2slack.py:27-30 | `requests.post` appends the POST and returns the scripted status code |
| Session.Env.LogDeliveryError | mail2slack.py:32-35 | the error log line of a refused POST is recorded with its status |
| Session.Env.Sleep | mail2slack.py:117 | `time.sleep` appends its event and advances the clock |
| Session.Env.Time | mail2slack.py:107 | `time.time()` reads the clock |
| Processor.SendEvents | mail2slack.py:22-35 | the events of one `send_slack_message` (no contract of its own; Runs.SendOnce states it) |
| Processor.MessageRun | mail2slack.py:67-117 | the events, outcome and clock of one pass of the loop body (no contract of its own; Runs.MessageShape and Runs.MessagePacing state them) |
| Processor.BatchRun | mail2slack.py:65-117 | the `for num in ids` loop, ended by the first id that does not finish (no contract of its own; Runs.BatchShape and its parts state it) |
| Processor.MailboxRun | mail2slack.py:57-117 | `process_mailbox`: the search, then the batch over `data[0].split()` (no contract of its own; Runs.SearchFailure, Runs.MailboxShape and Runs.MailboxKeepsSession state it) |
| Processor.AlertRun | mail2slack.py:167-186 | `process_alert` from the connection on (no contract of its own; Runs.LoginFailure, Runs.SelectFailure, Runs.AlertResult and Runs.SessionRelease state it) |
| Processor.SendSlackMessage | mail2slack.py:22-35 | appends exactly `SendEvents`: one POST, then a log line when the status is not 200 |
| Processor.BuildPayload | mail2slack.py:76-110 | the formatting steps return `FormatMessage`, raising where the script raises |
| Processor.HandleMessage | mail2slack.py:67-117 | one pass of the loop body appends exactly `MessageRun`'s events and advances the clock as it says |
| Processor.BatchStep | mail2slack.py:65-70 | an id that does not finish ends the batch; one that finishes is followed by the rest of the batch |
| Processor.ProcessIds | mail2slack.py:65-117 | the `for num in ids` loop appends exactly `BatchRun`'s events and returns its outcome |
| Processor.ProcessMailbox | mail2slack.py:57-117 | `process_mailbox` appends exactly `MailboxRun`'s events, returns its outcome and leaves its clock |
| Processor.ProcessAlert | mail2slack.py:167-186 | `process_alert` from the connection on appends exactly `AlertRun`'s events and ends with its result; the clock ends where the mailbox pass leaves it, or unchanged when login or select fails |
| Processor.ServeFolder | mail2slack.py:176-186 | after a successful `select`: the mailbox pass, then `close` and `logout` unless it raised; the clock ends where the mailbox pass leaves it |
| Runs.SendOnce | mail2slack.py:25-35 | one POST to the end point with `application/json`; a log line exactly when the status is not 200; nothing else |
| Runs.FormatTimeIndependent | mail2slack.py:76-110 | whether formatting raises, and with which error, does not depend on the time |
| Runs.DeliveredMessage | mail2slack.py:67-117 | a delivered id produces one fetch, one POST and then one sleep |
| Runs.MessageShape | mail2slack.py:67-117 | each id is fetched once; it finishes exactly when it is delivered, adding one POST, one sleep and one second; a failed fetch returns with that id; otherwise the formatting error is raised |
| Runs.MessagePacing | mail2slack.py:114-117 | a finished id adds one POST then one sleep and one second; any other id adds neither |
| Runs.FirstUndeliverable | mail2slack.py:65-70 | the position of the first id whose fetch fails or whose message raises: every earlier id is delivered |
| Runs.BatchShape | mail2slack.py:65-117 | with `f` the first id not delivered: ids up to and including `f` are fetched in order, `f` POSTs each followed by a sleep, `f` seconds pass, no session action, and the batch ends with `f`'s failure or finishes when there is none |
| Runs.BatchFetched | mail2slack.py:65-70 | the fetched ids are a prefix of the id list, ending at the first id not delivered |
| Runs.BatchPacing | mail2slack.py:114-117 | POSTs and sleeps alternate, one pair per delivered id |
| Runs.BatchClock | mail2slack.py:117 | the clock advances one second per delivered id |
| Runs.BatchKinds | mail2slack.py:65-117 | the loop performs only fetches, POSTs, log lines and sleeps |
| Runs.BatchOutcome | mail2slack.py:68-70 | the batch finishes normally exactly when every id is delivered; otherwise it ends with the failed fetch or the error of the first id not delivered |
| Runs.FetchFailureStops | mail2slack.py:65-70 | when every earlier id is delivered and the fetch at position `j` fails, exactly the ids up to `j` are fetched, `j` POSTs are made and the pass returns |
| Runs.PacedAlternates | mail2slack.py:114-117 | in the POST/sleep sequence, POSTs sit at even positions and sleeps at odd ones |
| Runs.PacedCount | mail2slack.py:114-117 | `n` delivered messages give `n` POSTs and `n` sleeps |
| Runs.SearchFailure | mail2slack.py:60-63 | a failed search ends the pass with nothing fetched or sent |
| Runs.MailboxShape | mail2slack.py:57-117 | the pass is one search followed by batch events only; it raises only after a successful search |
| Runs.MailboxKeepsSession | mail2slack.py:57-117 | the mailbox pass neither closes nor logs out |
| Runs.StatusIrrelevant | mail2slack.py:31-35 | the HTTP status codes change nothing but the log lines: same fetches, POSTs, sleeps, outcome and clock |
| Runs.LoginFailure | mail2slack.py:169-173 | a refused login exits with status 1 after connect and login, with no select and no logout |
| Runs.SelectFailure | mail2slack.py:175-186 | a failed `select` is followed by `logout` only, and the exit status is 0 |
| Runs.AlertResult | mail2slack.py:167-186 | the run starts with connect and login; it exits with 1 exactly when the login is refused, and crashes exactly when the folder was selected and a message raised |
| Runs.SessionRelease | mail2slack.py:175-186 | after a successful login and without a crash, `logout` happens exactly once and last; `close` happens once, right before `logout`, exactly when `select` was OK and the run ended with status 0; a crash releases nothing |

## Left out

- IMAP transport: the session is a script of replies. A connection that
  `IMAP4_SSL` cannot open is not modelled.
- HTTP delivery: `requests.post` is a scripted status code per payload.
  Timeouts and exceptions are not modelled.
- MIME parsing and transfer decoding (`email.message_from_string`,
  `get_payload(decode=True)`): the parsed tree and the decoded payloads are
  given. `Mime.WellFormed` is the shape the model requires of them: a node has
  children exactly when its major type is `multipart` or `message`.
- Malformed multipart messages: when a multipart part has no boundary
  parameter, or its start boundary never appears, the parser keeps the part
  with a string body, and `walk()` yields it as a leaf. Such a
  `multipart/mixed` part is skipped by `get_text`. For such a
  `multipart/alternative` part, mail2slack.py:49 iterates the characters of
  the string, and the recursive call raises `AttributeError`. These trees are
  not `Mime.WellFormed`. Selector.GetText, Processor.BuildPayload and the
  runs (through the `Script.Valid` requirement) do not cover them.
- Wall-clock time: `time.time()` reads a clock that only `time.sleep` advances.
- Argument parsing, reading the configuration file and the `ParsingError`
  exit (mail2slack.py:124-165): the eight configuration values are a
  `Formatter.Config`.
- Logging: the only log line kept is the error of a refused POST (as an event).
  The `%d` format applied to a string id at mail2slack.py:69 fails inside the
  logging module. The model treats a failed fetch as a normal return,
  which is what happens.
- JSON validity of the payload. The template writes `"short": False`, and a
  body that ends in a backslash escapes the closing quote of `"text"`.
  Only string-level properties are proved.
- Processor.ProcessIds, Processor.HandleMessage, Processor.BuildPayload and
  Processor.ServeFolder: the inline code of `process_mailbox` and
  `process_alert` is split into these methods. They run the same steps in
  the same order. `time.time()` is read before the payload is built rather
  than inside the template. Only `time.sleep` changes the clock, so the
  value read is the same.
- Runs.MessageShape, Runs.BatchShape, Runs.BatchOutcome: the formatting
  error is stated through `FormatMessage` at time 0. Runs.FormatTimeIndependent
  proves the error does not depend on the time.
