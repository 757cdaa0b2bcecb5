# Pi Offloader dashboard, modelled in Dafny

The offloader is a Flask dashboard on a Raspberry Pi that copies camera SD
cards and uploads the footage with rclone. This project models the decision
logic of its web application (`app.py`) and of its email notifier
(`send_notification.py`), and proves properties of that model. The logic
covered is:

- the notification bus and its server-sent-events stream;
- the `/internal/notify` ingest endpoint and the notify token chosen at startup;
- the authentication gate;
- the credentials update, including the `.env` rewrite;
- the Wi-Fi configuration and scan listing;
- the rclone authorisation-URL handling;
- the `/run/<action>` dispatch;
- the notifier's configuration check, transport choice and command line.

Anything the real program gets from outside is a parameter of the model:
the environment, the request, the contents of files, subprocess results and
the SMTP server's failures.

Modules, one per file:

- `options.dfy` — `Options`: the optional value, `dict.get`, Python's `not v` for a string.
- `text.dfy` — `Text`: the Python string operations the code relies on. These are `str.strip()` with Python's whitespace set, `startswith`, `in`, `split`, `join`, `splitlines()` with Python's line boundaries, `readlines()`, `writelines()`, `s[:n]`, and `int(s)` / `str(n)`.
- `order.dfy` — `Order`: code-point order on strings and `sorted(set(...))`.
- `json.dfy` — `JsonValue`: decoded JSON values and their truthiness.
- `process.dfy` — `Process`: what a route sees of a subprocess, i.e. a completed run or the exception it raised, plus flashed messages.
- `bus.dfy` — `Bus`: `notification_queue` as a class over a `seq`, `add_notification`, and the stream loop.
- `ingest.dfy` — `Ingest`: the effective notify token and the check ladder of `internal_notify`.
- `auth.dfy` — `Auth`: `verify_password`, `check_initial_setup`, and the two of them combined with `login_required`.
- `credentials.dfy` — `Credentials`: form validation, the rewrite loop over the `.env` lines, and the route as a class over the environment, the `.env` text and the admin globals.
- `wifi.dfy` — `Wifi`: the POST form check, the `network={...}` block, the `wpa_cli` verdict, and the ESSID loop and listing.
- `drive.dfy` — `DriveAuth`: the URL extraction loop, and the GET and POST outcomes of `/drive_auth`.
- `actions.dfy` — `Actions`: the action table of `/run/<action>` and every outcome.
- `mailer.dfy` — `Mailer`: `load_config`, the SMTP call sequence of `send_email` on a recording session object, and the script's main block.

Subprocess failures are one datatype, `Process.Failure`, whose cases match
the `except` clauses of the routes. `json.dumps` is an uninterpreted
function parameter. The random bytes of `secrets.token_hex` are
parameters.

Three details of the code shape the model:

- The queue is created without `maxsize`, so it is unbounded, and `add_notification` never drops an event.
- The warning on the index page in setup mode is flashed on every request, not once per session.
- A notify token equal to the placeholder is replaced at startup with a fresh random token.

## Model

| member | source | states |
|---|---|---|
| Bus.NotificationQueue.Add | app.py:61-67 | `add_notification` appends exactly `{type, message}` at the tail. Nothing can fail, because the queue is unbounded (app.py:32). |
| Bus.NotificationQueue.StreamStep | app.py:182-189 | On a non-empty queue, one iteration removes the head and only the head, and yields `data: <json>\n\n`. On an empty queue it yields exactly `: keepalive\n\n` and leaves the queue unchanged. |
| Bus.NotificationQueue.Stream | app.py:181-189 | n iterations of the loop: the frames are `Frames` of the old queue and the queue left behind is `Remaining`. |
| Bus.FramesDeliverInOrder | app.py:182-189 | The loop yields one frame per iteration and never stops on its own. The queued events come out in insertion order, each exactly once, then only keepalives. |
| Bus.LaterEventsWaitBehind | app.py:182-187 | Events added later do not change the frames of the events already queued, and wait at the tail. |
| Bus.NoEventDropped | app.py:61-67 | An added event is always delivered, after the ones before it. |
| Ingest.Hex | app.py:33 | `token_hex` output has two lower-case hex digits per byte. |
| Ingest.EffectiveToken | app.py:33-37 | The token is the configured value unless it is missing or the placeholder. In those cases it is 16 fresh hex digits. It is never the placeholder. |
| Ingest.Decide | app.py:206-227 | The check ladder in order, each case as an if-and-only-if: 403 for a remote caller without the token, then 400 for a non-JSON body, Flask's 400 for undecodable JSON, 500 for a non-object, 400 for a missing or falsy message. Otherwise the event is admitted, with `type` defaulting to `"info"`. |
| Ingest.InternalNotify | app.py:204-227 | A 200 enqueues exactly the admitted event. Every other reply leaves the queue unchanged. |
| Ingest.PlaceholderNeverAdmitsRemote | app.py:33-37 | A remote caller presenting the placeholder token is refused, whatever the environment holds. |
| Ingest.MissingHeaderRefusedFirst | app.py:206-212 | A remote caller without the header is refused before its body is examined. |
| Ingest.LoopbackMessageAdmitted | app.py:206-227 | A loopback script posting only a message enqueues an `info` event carrying it. |
| Auth.VerifyPassword | app.py:71-84 | Unconfigured: `temp_user` exactly for the four setup endpoints, refused otherwise. Configured: the username exactly when both values equal the stored ones. |
| Auth.CheckInitialSetup | app.py:87-100 | Unconfigured: `index` passes with the warning and any other endpoint outside the allow-list is redirected. Otherwise it passes silently. |
| Auth.Gate | app.py:71-100 | Hook, routing, then `login_required`. Redirected iff unconfigured and the endpoint is neither a setup endpoint nor "index". 404 iff configured and no route matched. 401 iff a protected endpoint gets a pair that is wrong, or is "index" in setup mode. A served page never carries the setup warning, and a protected one is served only when configured, to the submitted username. |
| Auth.SetupModeServesNoProtectedPage | app.py:87-100 | In setup mode no protected page is served. `index` gets past the hook but is refused by `verify_password`. |
| Auth.ConfiguredServesExactPair | app.py:71-84 | Once configured, a protected page is served exactly to the stored pair. |
| Auth.SetupEndpointsAlwaysReachable | app.py:76-78 | The setup endpoints are reachable in both modes. |
| Credentials.ValidateUpdate | app.py:466-477 | Refusal for an empty stripped username or an empty password, checked first. Then, when an admin exists, refusal unless the old pair matches exactly. Otherwise the stripped username and the password are accepted. |
| Credentials.RewriteEnvLines | app.py:482-490 | The loop with its `found_user` / `found_pass` flags computes `Rewritten`. |
| Credentials.RewriteSetsBothKeys | app.py:484-490 | Other lines are kept at their places, and each old username or password line is replaced in place by the new one. The missing keys follow the old lines, username first. Length grows by the number of missing keys. Every username line is the new username, every password line the new password, and both exist. |
| Credentials.RewriteIdempotent | app.py:484-490 | On the same line sequence, rewriting a second time with the same pair changes nothing. |
| Credentials.RewriteIdempotentFile | app.py:481-493 | For a file whose every line ends with its newline, reading back the written file and submitting the same pair again writes the same text. |
| Credentials.KeyLinesDisjoint | app.py:486-487 | No line is both a username line and a password line. |
| Credentials.GluedUsernameIsLost | app.py:479-493 | As written: a `.env` whose last line lacks its newline gets the username line glued onto it, and on the next read no username line is found. |
| Credentials.GluedReloadKeepsUser | app.py:489-497 | As written, on that glued file the reload leaves `ADMIN_USERNAME` as it was, so a dashboard in setup mode stays in setup mode. The password is reloaded. |
| Credentials.GluedResubmitGrows | app.py:481-493 | As written, submitting the same pair again on the glued file appends one more username line. |
| Credentials.FixedReloadSetsPair | app.py:489-497 | Corrected rewrite: after the reload both keys hold the submitted values, stripped as `load_dotenv` strips an unquoted value. |
| Credentials.AsWrittenReloadsPair | app.py:481-497 | The route as written works on a file whose lines all end with a newline, or that already names both keys: after the reload both keys hold the submitted values, stripped. |
| Credentials.AsWrittenUpdateAuthenticates | app.py:466-497 | After such an update the stripped pair authenticates and every other pair is refused. A password submitted with surrounding whitespace is written raw but reloaded stripped, so it no longer logs in as typed. One made only of whitespace leaves the dashboard in setup mode. |
| Credentials.DotenvValueFound | app.py:494 | The reload finds a value for a key exactly when some line of the file names the key. |
| Credentials.DotenvValueLast | app.py:494 | A value the reload finds is the value of a line naming the key, after which no line names it. |
| Credentials.DotenvValueUniform | app.py:494 | When every line naming the key is the same line, the reload takes that line's value. |
| Credentials.KeyLineValue | app.py:486-487 | A key line as the route writes it gives back its value, stripped. |
| Credentials.ReloadedRewrite | app.py:494-497 | A file whose username lines and password lines each repeat one key line reloads that pair. |
| Credentials.WrittenFile | app.py:493 | The file after the try block: untouched when `open` raises, a prefix of the new text when the write raises, the whole new text otherwise. |
| Credentials.RewrittenFixedRereads | app.py:481-493 | Corrected rewrite: read back, it gives exactly the lines written, with both keys set. |
| Credentials.FixOnlyTerminatesLastLine | app.py:488-490 | The correction has as many lines as the code's rewrite, and every line but the old last one is the same. That last line is the code's own or it with a newline added. |
| Credentials.TerminatedKeepsKeys | app.py:485-487 | Terminating the last line changes no line's key class. |
| Credentials.ReplaceAllKeepsLines | app.py:484-488 | Replacing key lines keeps a file made of lines `readlines()` could return. |
| Credentials.NewPairAuthenticates | app.py:494-497 | Once the reloaded environment holds a non-empty pair, that pair is accepted and any other pair is refused. |
| Credentials.CredentialStore.PostCredentials | app.py:459-500 | The route first reloads the `.env` (`Refreshed`) and validates against that environment. Each outcome is stated as the whole new state. A refused form changes nothing beyond that reload. An accepted one writes `Rewritten` of the old lines as the code computes it. Without an exception it reloads the file, reads the globals back and publishes one success event. When the try block raises, the file is as far as the write got, the environment and globals are as the first reload left them, and one error event is published. The environment matches the file (`Synced`) afterwards unless the write stopped part-way or the reload raised. |
| Credentials.CredentialStore.Refresh | app.py:461 | `load_dotenv(override=True)`: the environment becomes `Refreshed` of the file, the file and globals are untouched, and afterwards the environment matches the file. |
| Credentials.Refreshed | app.py:89 | Reloading a missing file changes nothing. Otherwise the result is a fixpoint: reloading the same file again leaves it as it is. |
| Credentials.ReloadedSettles | app.py:494 | A second reload of the same text gives the same environment as the first. |
| Credentials.CredentialStore.Update | app.py:479-500 | The accepted branch: the file, environment, globals, page and event for each place the try block can stop. The environment matches the file after a clean save, and still does when `open` failed. |
| Credentials.CredentialStore.Save | app.py:492-497 | The try block: the file is what the write left, and the environment is `Reloaded` from the new text and the globals read from it, unless it raised. Without an exception the environment then matches the file. |
| Credentials.CredentialStore.SaveFixed | app.py:489-497 | Corrected write: the file holds the corrected rewrite, and for a well-formed file the globals hold the submitted username and the stripped password. |
| Wifi.CheckForm | app.py:290-295 | A missing field is refused first, then a `"`, `\` or newline in SSID or password. Otherwise the pair is accepted. |
| Wifi.NetworkBlockQuotesFields | app.py:297 | The block splits on `"` into exactly the fixed text, the SSID, the fixed text, the password and the fixed text. |
| Wifi.WifiPost | app.py:289-318 | A refused form publishes nothing and leaves the config file alone. An accepted one publishes exactly one event. It appends the whole block, or, when the append raised, the part of it that reached the file. Success holds iff `wpa_cli` completed with output judged OK. |
| Wifi.Reached | app.py:301 | An append that fails in `open` leaves nothing of the block. Only another OSError, from the write or the flush, can leave part of it. |
| Wifi.Caught | app.py:313-317 | A failed append lands in the FileNotFoundError, PermissionError or generic handler, never in the `wpa_cli` exit-status or timeout ones. |
| Wifi.FailureResult | app.py:313-317 | Every exception gives one error flash and one error event. The `wpa_cli` failure flash quotes `str(e)` of the `CalledProcessError`. |
| Wifi.AppendedBlockHoldsSubmission | app.py:297-303 | The appended text gives back the submitted SSID and password. |
| Wifi.ScanSsids | app.py:326-334 | Each name offered by some line appears, no name twice, and nothing else. |
| Wifi.WifiListing | app.py:322-339 | A successful scan gives the offered names strictly sorted. A failed or raising scan gives none. |
| Wifi.ListingIsCanonical | app.py:339 | The listing depends only on the set of names. |
| Wifi.EssidLineOffersName | app.py:328-333 | An indented `ESSID:"name"` line offers its name. A hidden (`\x00`) or empty name is not offered. |
| Order.SortedSet | app.py:339 | `sorted(set(xs))`: strictly increasing, with the same members. |
| Order.SortedListingUnique | app.py:339 | Two strictly sorted lists with the same members are equal. |
| DriveAuth.FirstUrlLine | app.py:533-534 | The index of the first line that starts with `http` once stripped. |
| DriveAuth.ExtractAuthUrl | app.py:533-535 | The loop with its `break` finds the stripped first URL line. When there is none, it gives the whole output. |
| DriveAuth.DriveAuthGet | app.py:527-540 | A completed run gives the stripped first line starting with `http`, or, when there is none, the raw output with the warning. It publishes nothing. A raised run gives the error page. |
| DriveAuth.UrlFailurePage | app.py:536-539 | Each exception gives a non-empty error message, one flash and one event. |
| DriveAuth.DriveAuthPost | app.py:512-526 | A missing token runs nothing. Otherwise rclone gets the token plus a newline and one event is published, a success exactly when rclone completed. |
| Actions.RunAction | app.py:424-456 | `Popen` is called iff the action is listed and is a power action or an existing executable script. Power actions go through the shell, scripts run from the project directory. 1 or 2 events are published. |
| Actions.StartsOnlyListedCommands | app.py:426-448 | The only processes started are the six of the table. |
| Actions.PowerActionAnnouncedFirst | app.py:440-452 | A power action is announced before the launch. A second event is published iff the launch raised. |
| Actions.ScriptOutcomes | app.py:445-452 | The exact event of each script outcome: missing or not executable, started, or the launch raised. |
| Text.StripSpec | app.py:485 | `strip()` keeps a middle piece with no whitespace at either end, and cuts only whitespace. |
| Text.SplitJoin | send_notification.py:101 | Splitting a join on its separator gives the parts back. |
| Text.ParseIntToString | send_notification.py:52 | `int(str(i)) == i`. |
| Mailer.PythonInt | send_notification.py:52 | `int(v)` of a decoded value. Booleans become 0/1, floats are truncated toward zero, strings are parsed. Null, lists and objects are refused. |
| Mailer.LoadConfig | send_notification.py:38-56 | None exactly for a missing or unreadable file, a non-object, a missing or falsy required key, or a port `int()` refuses. Otherwise the same object with `smtp_port` made an integer. |
| Mailer.PlanTransport | send_notification.py:76-86 | The connection gets a 30-second timeout. Port 465 and only 465 uses implicit TLS. Any other port sends EHLO, STARTTLS, EHLO right after connecting. The login with the configured username and password is sent, always encrypted: on 465 right after the connect, otherwise right after the EHLO that follows STARTTLS. The message directly follows the login, and QUIT is last. |
| Mailer.TranscriptLoginsEncrypted | send_notification.py:76-84 | Whichever call raises, no login happens in the clear. |
| Mailer.InvalidConfigSendsNothing | send_notification.py:61-64 | Without a valid configuration, no call is made and the result is False. |
| Mailer.DeliveredRanWholePlan | send_notification.py:84-88 | A delivered email sent the message and closed the connection. |
| Mailer.Deliver | send_notification.py:73-95 | The calls are the plan, cut just after the first that raises. The result is True iff none raised. |
| Mailer.SendEmail | send_notification.py:59-95 | The calls are `Transcript`. A Subject, From or To value with a line break before its end raises `ValueError` before any call. Otherwise the result is `Delivered`. |
| Mailer.RefusedHeaderSendsNothing | send_notification.py:66-70 | A refused header stops `send_email` before the connection: no call, no delivery. |
| Mailer.InnerBreakRaises | send_notification.py:67-69 | A header value raises exactly when a line break is followed by more text; a break at its very end is accepted. |
| Mailer.BodyKeepsArguments | send_notification.py:101 | The body splits back into the arguments when none holds a newline. |
| Mailer.RunScript | send_notification.py:98-114 | Exit status 0 exactly when the email is delivered, 1 otherwise. A refused header exits with status 1 and makes no call. |

## Left out

- I/O plumbing is not modelled: the file system, subprocess execution, logging, Flask routing, templates and flash storage. Their results are parameters.
- Concurrency is not modelled. The queue is used sequentially: no producer runs concurrently with a consumer.
- The stream's generic `except` branch (app.py:190-193), with its `time.sleep(5)`, and `notification_queue.task_done()` are not modelled.
- `json.dumps` is not interpreted. Its output was not needed by any property.
- `secrets.token_hex` is not modelled. Its random bytes are parameters.
- `readlines()` is modelled without universal-newline translation. `\r` in `.env` files is treated as ordinary text, and the corrected rewrite's re-read property requires files without `\r`.
- Credentials.Reloaded: only the two admin keys are reloaded. A line names a key as the route recognises it, stripped and starting with `KEY=`, and its value is the rest stripped. `python-dotenv`'s quotes, ` #` comments, `export` prefix and `${VAR}` expansion are not modelled, nor are the other keys of the file.
- Credentials.CredentialStore.Save: a `load_dotenv` failure is taken to happen before any variable is set. An exception part-way through setting variables is not modelled.
- The startup `load_dotenv(dotenv_path)` without override (app.py:22) and the globals read at app.py:41 are not modelled. The `CredentialStore` constructor takes the environment and globals as they stand afterwards. The before_request hook's reload (app.py:89) is the same operation as `Refresh`, and `Gate` takes the environment it leaves.
- The GET branch of `/credentials` (app.py:502) is not modelled beyond `adminExists`.
- The other routes are not modelled: index, status, diagnostics, logs, notifications, backup_config, update_system and run_send_test_email. They are system metrics, floating point and subprocess plumbing.
- Credentials.RewriteIdempotent: it is stated on line sequences. On files it is proved only when every line ends with its newline (RewriteIdempotentFile); with an unterminated last line a second submission appends again (GluedResubmitGrows).
- Wifi.ScanSsids: its ensures does not state the order in which names are first found. Only the set reaches the page, through `sorted(set(...))`.
- `int()` on non-ASCII Unicode digits and on the JSON extensions `Infinity` / `NaN` is not modelled. JSON numbers here are integers or reals.
- Header assignment of non-string `smtp_username` / `target_email` values is not modelled. The values are carried as decoded JSON.
- The SMTP protocol and SSL context are not modelled. The server is a session that records calls and raises from a given call index on. Which exception is raised only changes the log line.
- The notifier's `log` is not modelled. Neither is `print` in the main block: it only writes to stderr or stdout.

## Findings

| source | as written | input that shows it | evidently intended | confidence | as-written member | corrected member |
|---|---|---|---|---|---|---|
| app.py:481-497 | A missing `ADMIN_USERNAME=` line is appended directly after the old last line, even when that line has no trailing newline. | A `.env` given as `FOO=bar` with no final newline, in setup mode, and new pair `u`/`p`. The file becomes `FOO=barADMIN_USERNAME=u\nADMIN_PASSWORD=p\n`. No line starts with `ADMIN_USERNAME=`, so the reload leaves the username unset and the dashboard stays in setup mode. | Terminate the last line before appending, so both keys are reloaded. | not executed | Credentials.GluedReloadKeepsUser | Credentials.FixedReloadSetsPair |
