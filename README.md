# Website-change watcher: the decision and dispatch logic, in Dafny

The repository holds two one-shot scripts that fetch a web page, read the text
of the first element a CSS selector matches, compare it with an expected
string and, when they differ, send an alert:

- `check_website.py` drives a headless browser. On a difference it e-mails
  every recipient of a comma-separated `"number:gateway"` list (an e-mail to a
  carrier's SMS gateway), then posts to one Telegram chat.
- `check-website.py` uses a plain HTTP GET. It reads four Twilio settings from
  the environment and, on a difference, sends one SMS through Twilio.

This project models the logic between the I/O calls and proves what it does:

- the recipient-list parser;
- the rule that normalises the browser's element text;
- each script's decision: exit code, and which notifications are attempted,
  in what order, with what body.

Fetching, selector matching and the notification transports are inputs or
entries in a trace. One run is a pure function from those inputs to an
`Outcome(exitCode, sends)`. The loops of the source are methods proved equal
to those functions.

Files:

- `pystr.dfy` (module `PyStr`): Python's `str.strip()` and `str.split(sep)`.
  Both are functions whose contracts say what they mean. Lemmas prove the
  `split`/`join` round trips and that `strip` is the unique trimmed middle.
- `dispatch.dfy` (module `Dispatch`): the `Send` and `Outcome` datatypes. It
  also holds `DeliverFrom`: a sequence of transport calls where the first one
  that raises ends the process with exit code 1.
- `browser_check.dfy` (module `BrowserCheck`): `check_website.py`.
- `twilio_check.dfy` (module `TwilioCheck`): `check-website.py`.

Modelling choices:

- A transport call that raises in `check_website.py` is not caught. The
  exception leaves `main`, the interpreter exits with status 1, and later
  recipients get nothing. The model takes, as an input, the set of attempt
  indices whose call raises.
- In `check-website.py` the Twilio call sits inside a `try`. The model takes
  whether it succeeds as an input. A failed attempt still appears in the
  trace.
- Python's whitespace for `strip()` is the set of characters `str.isspace()`
  accepts. `PyStr.IsSpace` lists them.

Behaviour of the code that is easy to get wrong:

- A missing element in `check_website.py` is compared as the literal
  `"text_not_found, check HTML selector"`. When `expected` is that literal, a
  missing element raises no alert (`MissingElementMatchesStandIn`).
- A missing element in `check-website.py` is compared as `""`. When
  `expected` is empty, a missing element raises no SMS
  (`TwilioCheck.MissingElementMatchesEmpty`), although the comment at
  check-website.py:119 says it should be treated as a change.
- A blank segment of the recipient list (as in `"a,,b"`) becomes an empty
  recipient `""` and is still e-mailed (`BlankSegmentKept`).
- A failing e-mail or Telegram call ends the run with exit code 1, so later
  recipients, and the Telegram chat, get nothing (`MismatchAbortsOnRaise`).
- The docstring of `parse_recipients` promises `(number, gateway)` tuples. The
  code returns the stripped `"number:gateway"` strings.

## Model

| member | source | states |
|---|---|---|
| `PyStr.TrimStart` | check_website.py:48 | the result does not start with whitespace and is no longer than the input |
| `PyStr.TrimStartDropsSpace` | check_website.py:48 | the result of `lstrip()` is a suffix of the input, and everything it dropped is whitespace |
| `PyStr.TrimEnd` | check_website.py:48 | the result does not end with whitespace and is no longer than the input |
| `PyStr.TrimEndDropsSpace` | check_website.py:48 | the result of `rstrip()` is a prefix of the input, and everything it dropped is whitespace |
| `PyStr.Strip` | check_website.py:48 | the result has no whitespace at either end and is no longer than the input |
| `PyStr.StripBlank` | check_website.py:44-45 | `strip()` gives the empty string exactly when the input is empty or all whitespace |
| `PyStr.StripUnique` | check_website.py:48 | whitespace + trimmed middle + whitespace strips to that middle: an independent characterisation of `strip()` |
| `PyStr.Split` | check_website.py:47 | `split(",")` gives one piece more than the input has separators |
| `PyStr.SplitPiecesFree` | check_website.py:47 | no piece of a split contains the separator |
| `PyStr.SplitJoin` | check_website.py:47 | joining the pieces of a split with the separator gives back the input exactly (nothing lost, added or reordered) |
| `PyStr.JoinSplit` | check_website.py:47 | splitting a join of separator-free pieces gives back those pieces |
| `Dispatch.DeliverFrom` | check_website.py:152-159 | calls are made in order until the first raising one; exit code 0 iff none raises, and then all calls are made; otherwise exit code 1, the trace ends with the raising call, and every earlier call went through |
| `Dispatch.DeliverAll` | check_website.py:152-159 | with no raising call, every attempt is made and the exit code is 0 |
| `Dispatch.DeliverStopsAt` | check_website.py:152-155 | if call k is the first to raise, exactly calls 0..k are made and the exit code is 1 |
| `BrowserCheck.Recipients` | check_website.py:39-50 | empty result iff the input is empty or all whitespace; otherwise (commas + 1) entries; every entry is trimmed |
| `BrowserCheck.StripEach` | check_website.py:47-49 | one entry per segment, and entry k is segment k stripped |
| `BrowserCheck.RecipientsInOrder` | check_website.py:47-49 | entry k is the k-th comma-separated segment, stripped (order kept) |
| `BrowserCheck.BlankSegmentKept` | check_website.py:47-49 | a blank segment of a non-blank list becomes an empty entry at its position instead of being dropped |
| `BrowserCheck.RecipientsOfJoin` | check_website.py:39-50 | parsing entries joined with commas gives back each entry stripped, as one whole string (not a number/gateway pair) |
| `BrowserCheck.ParseRecipients` | check_website.py:39-50 | the loop appending each stripped segment builds exactly `Recipients(value)` |
| `BrowserCheck.ElementText` | check_website.py:75-78 | absent iff there is no match or the first match's text is absent or empty; otherwise the stripped text, with no surrounding whitespace |
| `BrowserCheck.WhitespaceTextIsEmptyNotAbsent` | check_website.py:77-78 | whitespace-only text is reported as `""`, not as absent |
| `BrowserCheck.Observed` | check_website.py:141-143 | an absent text is compared as the literal `"text_not_found, check HTML selector"` (the constant `NotFound`); a present one as itself |
| `BrowserCheck.ChangeMessage` | check_website.py:151 | the alert body is `"The webpage has changed! Expected: "`, then the expected text, then the separator `ChangeSeparator` (space, vertical bar, space, `Found: `), then the compared text, each at its own position in the body |
| `BrowserCheck.ChangeMessageNamesFound` | check_website.py:151 | for one expected text, different compared texts give different alert bodies |
| `BrowserCheck.Notifications` | check_website.py:151-155 | one e-mail per recipient in list order, then one Telegram message, all with the same body |
| `BrowserCheck.Run` | check_website.py:131-159 | a page error gives exit code 1 and no sends; every run exits with 0 or 1 |
| `BrowserCheck.Notify` | check_website.py:151-159 | the e-mail loop followed by the Telegram call produces exactly the delivery of `Notifications` |
| `BrowserCheck.CheckWebsite` | check_website.py:131-159 | the step-by-step entry point produces exactly the outcome `Run` specifies |
| `BrowserCheck.MatchSendsNothing` | check_website.py:145-147 | compared text equal to `expected` gives exit code 0 and no sends |
| `BrowserCheck.MissingElementMatchesStandIn` | check_website.py:141-147 | a missing element with `expected` equal to the not-found literal gives exit code 0 and no sends |
| `BrowserCheck.MismatchFansOut` | check_website.py:149-159 | on a difference with no raising call: exit code 0, one e-mail per recipient in order, then one Telegram send, all carrying the same change message built from `expected` and the compared text |
| `BrowserCheck.MismatchAbortsOnRaise` | check_website.py:152-155 | on a difference, the first raising call k ends the run with exit code 1 after exactly k + 1 attempts |
| `TwilioCheck.All` | check-website.py:101 | Python's `all`: true exactly when every value is set and not empty (truthy) |
| `TwilioCheck.Configured` | check-website.py:96-101 | the settings test passes only if each of the four Twilio settings is set and not empty |
| `TwilioCheck.ConfiguredMeansAllSet` | check-website.py:96-101 | the settings test passes exactly when all four settings are set and not empty; one unset or empty setting fails it |
| `TwilioCheck.AlertMessage` | check-website.py:127-132 | the SMS body is, in order and each at its own position: the headline `"Website check alert: text changed."`, a line break and `"URL: "`, the URL, a line break and `"Expected: "`, the expected text, a line break and `"Found: "`, and the compared text, with nothing else; this holds whatever the inputs contain, line breaks included |
| `TwilioCheck.FoundText` | check-website.py:116-120 | a missing element is compared as `""`; a found one as its text |
| `TwilioCheck.Run` | check-website.py:96-147 | exit code 0 iff all four settings are present, the fetch succeeded, and the text matched or the SMS went through; at most one send, made exactly when configured, fetched and different |
| `TwilioCheck.MissingSettingExits1` | check-website.py:96-106 | an unset or empty Twilio setting gives exit code 1 and no sends |
| `TwilioCheck.RequestFailureExits1` | check-website.py:110-114 | a failed request gives exit code 1 and no sends |
| `TwilioCheck.MatchSendsNothing` | check-website.py:122-124 | an exact, case-sensitive match gives exit code 0 and no sends |
| `TwilioCheck.MissingElementMatchesEmpty` | check-website.py:116-124 | a missing element with an empty `expected` gives exit code 0 and no SMS |
| `TwilioCheck.MismatchSendsOneSms` | check-website.py:126-147 | on a difference, exactly one SMS is attempted, with the configured account and numbers and the alert body; exit code 0 if it went through, 1 if it raised |
| `TwilioCheck.AlertMessageLines` | check-website.py:127-132 | the alert body has exactly four lines: the headline, then `URL: `, `Expected: ` and `Found: ` each followed by its value (when none of them holds a line break) |

## Left out

- The Playwright session, `requests.get` and BeautifulSoup selection
  (check_website.py:59-73, check-website.py:36-49) are network I/O and library
  semantics. Their results are inputs: `BrowserFetch` is the match count and
  the first match's text content; `HttpFetch` is the text from
  `get_text(strip=True)`.
- Which exceptions the browser session raises and when (launch, navigation
  timeout, text read timeout) is not modelled. Any of them is `PageError`.
- An exception from BeautifulSoup (for example, a malformed selector) is
  outside the `try` in check-website.py and would end the run with exit
  code 1. It is not modelled.
- `send_email.py` and `send_telegram.py` are thin wrappers over SMTP and the
  Telegram HTTP API. Each call is one `Send` entry, which records the
  arguments it was given.
- The fixed sender address and subject line of the e-mail are not recorded.
- The Telegram URL is built without URL encoding. It only feeds the HTTP call
  and is not modelled.
- A Telegram reply with an HTTP error status does not raise in the source, so
  it counts as a call that went through.
- The Twilio `Client` is a foreign call. Whether it succeeds is an input.
- `argparse`, `os.environ`, the timeouts and `logging` are process plumbing.
  Arguments and settings are plain inputs. Log lines are not modelled. A
  command line `argparse` rejects ends the process with exit code 2 before
  `main` decides anything (check_website.py:125, check-website.py:90); the
  exit codes 0 and 1 stated here are those of runs past that point. An
  unwritable `--log-file` makes `setup_logging` raise (check_website.py:127,
  check-website.py:92), ending the run with exit code 1 before any fetch or
  settings test; that failure is not modelled either.
