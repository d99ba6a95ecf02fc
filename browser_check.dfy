/**
 * The headless-browser watcher: parse the recipient list, normalise the text
 * the browser read from the first matching element, compare it with the
 * expected text and, on a difference, e-mail every recipient through their
 * carrier's SMS gateway and then post to one Telegram chat.
 */
module BrowserCheck {
  import opened Dispatch
  import PyStr

  // ---------------------------------------------------------------------------
  // Recipient list
  // ---------------------------------------------------------------------------

  /** The recipients named by a comma-separated `"number:gateway"` list: one
      entry per comma-separated segment, each stripped of surrounding
      whitespace, in the order of the segments. A blank list names nobody;
      otherwise blank segments stay in as empty entries. Entries are the
      stripped segments themselves, not split at their colon. */
  function Recipients(value: string): (r: seq<string>)
    ensures r == [] <==> PyStr.AllSpace(value)
    ensures !PyStr.AllSpace(value) ==> |r| == PyStr.Count(value, ',') + 1
    ensures forall i :: 0 <= i < |r| ==> PyStr.Trimmed(r[i])
  {
    PyStr.StripBlank(value);
    if value == [] || PyStr.Strip(value) == [] then []
    else
      StripEach(PyStr.Split(value, ','))
  }

  /** Every segment stripped, in order. */
  function StripEach(parts: seq<string>): (r: seq<string>)
    ensures |r| == |parts|
    ensures forall k :: 0 <= k < |parts| ==> r[k] == PyStr.Strip(parts[k])
  {
    if parts == [] then [] else StripEach(parts[..|parts| - 1]) + [PyStr.Strip(parts[|parts| - 1])]
  }

  /** The `k`-th recipient is the `k`-th comma-separated segment, stripped. */
  lemma RecipientsInOrder(value: string, k: nat)
    requires !PyStr.AllSpace(value)
    requires k < PyStr.Count(value, ',') + 1
    ensures Recipients(value)[k] == PyStr.Strip(PyStr.Split(value, ',')[k])
  {
  }

  /** A segment holding nothing but whitespace becomes an empty recipient,
      rather than being dropped. */
  lemma BlankSegmentKept(value: string, k: nat)
    requires !PyStr.AllSpace(value)
    requires k < |PyStr.Split(value, ',')| && PyStr.AllSpace(PyStr.Split(value, ',')[k])
    ensures k < |Recipients(value)| && Recipients(value)[k] == []
  {
    PyStr.StripBlank(PyStr.Split(value, ',')[k]);
  }

  /** Parsing a list written out by joining entries with commas gives back
      the entries, stripped: each comes back whole as one string (a
      `"number:gateway"` entry is not split at its colon). */
  lemma RecipientsOfJoin(entries: seq<string>)
    requires |entries| >= 1
    requires forall i :: 0 <= i < |entries| ==> ',' !in entries[i]
    requires |entries| > 1 || !PyStr.AllSpace(entries[0])
    ensures |Recipients(PyStr.Join(entries, ','))| == |entries|
    ensures forall i :: 0 <= i < |entries| ==>
      Recipients(PyStr.Join(entries, ','))[i] == PyStr.Strip(entries[i])
  {
    var value := PyStr.Join(entries, ',');
    PyStr.JoinSplit(entries, ',');
    if |entries| > 1 {
      assert value == entries[0] + [','] + PyStr.Join(entries[1..], ',');
      assert value[|entries[0]|] == ',';
    }
  }

  /** The loop that builds the recipient list one stripped segment at a time. */
  method ParseRecipients(value: string) returns (result: seq<string>)
    ensures result == Recipients(value)
  {
    if value == [] || PyStr.Strip(value) == [] {
      return [];
    }
    result := [];
    var parts := PyStr.Split(value, ',');
    for i := 0 to |parts|
      invariant result == StripEach(parts[..i])
    {
      assert parts[..i + 1][..i] == parts[..i];
      var part := PyStr.Strip(parts[i]);
      result := result + [part];
    }
    assert parts[..|parts|] == parts;
  }

  // ---------------------------------------------------------------------------
  // Reading the element
  // ---------------------------------------------------------------------------

  /** What the browser session produced: either an exception somewhere in it
      (launch, navigation, timeout) or a loaded page, on which the selector
      matched `matches` elements, the first of which has text content
      `firstText` (absent when there is no match or the node has none). */
  datatype BrowserFetch =
    | PageError
    | PageLoaded(matches: nat, firstText: Option<string>)

  /** The element text the browser fetch returns: absent when nothing matched
      and also when the first match has no or empty text; otherwise that text
      stripped. The emptiness test comes before stripping, so text made only
      of whitespace gives the empty string, not an absent text. */
  function ElementText(matches: nat, firstText: Option<string>): (r: Option<string>)
    ensures r.None? <==> matches == 0 || firstText == None || firstText == Some([])
    ensures r.Some? ==> PyStr.Trimmed(r.value) && r.value == PyStr.Strip(firstText.value)
  {
    if matches == 0 then None
    else match firstText
      case None => None
      case Some(text) => if text == [] then None else Some(PyStr.Strip(text))
  }

  /** Whitespace-only text is reported as found, with empty text. */
  lemma WhitespaceTextIsEmptyNotAbsent(matches: nat, text: string)
    requires matches > 0 && text != [] && PyStr.AllSpace(text)
    ensures ElementText(matches, Some(text)) == Some([])
  {
    PyStr.StripBlank(text);
  }

  // ---------------------------------------------------------------------------
  // Deciding and notifying
  // ---------------------------------------------------------------------------

  /** Stands in for the element text when the selector matched nothing. */
  const NotFound: string := "text_not_found, check HTML selector"

  /** The command-line arguments the decision uses (the URL, selector and
      timeout only feed the fetch, which is an input here). */
  datatype Args = Args(
    expected: string,
    emailAppPassword: string,
    toNumbers: string,
    telegramBotToken: string,
    telegramChatId: string)

  /** The text compared with the expected one: the element text, or the
      not-found stand-in when there is none. */
  function Observed(text: Option<string>): (found: string)
    ensures text.Some? ==> found == text.value
    ensures text.None? ==> found == NotFound
  {
    match text
    case Some(t) => t
    case None => NotFound
  }

  /** The alert body: a fixed headline, the expected text, a fixed
      separator and the compared text, on one line. */
  function ChangeMessage(expected: string, found: string): (m: string)
    ensures |m| == |ChangeHeadline| + |expected| + |ChangeSeparator| + |found|
    ensures m[..|ChangeHeadline|] == ChangeHeadline
    ensures m[|ChangeHeadline|..|ChangeHeadline| + |expected|] == expected
    ensures m[|ChangeHeadline| + |expected|..|m| - |found|] == ChangeSeparator
    ensures m[|m| - |found|..] == found
  {
    ChangeHeadline + expected + ChangeSeparator + found
  }

  const ChangeHeadline: string := "The webpage has changed! Expected: "
  const ChangeSeparator: string := " | Found: "

  /** For one expected text, the alert body tells the compared texts apart:
      two runs with different page texts send different messages. */
  lemma ChangeMessageNamesFound(expected: string, found1: string, found2: string)
    requires ChangeMessage(expected, found1) == ChangeMessage(expected, found2)
    ensures found1 == found2
  {
  }

  /** Every notification of one run, in order: one e-mail per recipient in
      list order, then one Telegram message, all with the same body. */
  function Notifications(args: Args, recipients: seq<string>, message: string): (attempts: seq<Send>)
    ensures |attempts| == |recipients| + 1
    ensures forall k :: 0 <= k < |attempts| ==> attempts[k].body == message
    ensures forall k :: 0 <= k < |recipients| ==>
      attempts[k] == Email(args.emailAppPassword, recipients[k], message)
    ensures attempts[|recipients|] == Telegram(args.telegramBotToken, args.telegramChatId, message)
  {
    seq(|recipients|, k requires 0 <= k < |recipients| => Email(args.emailAppPassword, recipients[k], message))
      + [Telegram(args.telegramBotToken, args.telegramChatId, message)]
  }

  /** One run of the browser watcher. `raising` holds the indices of the
      notification attempts whose transport call raises. */
  function Run(fetch: BrowserFetch, args: Args, raising: set<nat>): (o: Outcome)
    ensures fetch.PageError? ==> o == Outcome(1, [])
    ensures o.exitCode == 0 || o.exitCode == 1
  {
    match fetch
    case PageError => Outcome(1, [])
    case PageLoaded(matches, firstText) =>
      var found := Observed(ElementText(matches, firstText));
      if found == args.expected then Outcome(0, [])
      else Deliver(Notifications(args, Recipients(args.toNumbers), ChangeMessage(args.expected, found)), raising)
  }

  /** The notification loop: one e-mail per recipient, then the Telegram
      call; the first call that raises ends the run with exit code 1. */
  method Notify(args: Args, recipients: seq<string>, message: string, raising: set<nat>) returns (o: Outcome)
    ensures o == Deliver(Notifications(args, recipients, message), raising)
  {
    ghost var attempts := Notifications(args, recipients, message);
    var sends: seq<Send> := [];
    for i := 0 to |recipients|
      invariant sends == attempts[..i]
      invariant forall k :: 0 <= k < i ==> k !in raising
    {
      assert attempts[..i + 1] == attempts[..i] + [attempts[i]];
      sends := sends + [Email(args.emailAppPassword, recipients[i], message)];
      if i in raising {
        DeliverStopsAt(attempts, raising, i);
        return Outcome(1, sends);
      }
    }
    assert attempts == attempts[..|recipients|] + [attempts[|recipients|]];
    sends := sends + [Telegram(args.telegramBotToken, args.telegramChatId, message)];
    if |recipients| in raising {
      DeliverStopsAt(attempts, raising, |recipients|);
      return Outcome(1, sends);
    }
    DeliverAll(attempts, raising);
    return Outcome(0, sends);
  }

  /** The entry point, step by step: fetch result, stand-in, comparison, then
      the notifications. */
  method CheckWebsite(fetch: BrowserFetch, args: Args, raising: set<nat>) returns (o: Outcome)
    ensures o == Run(fetch, args, raising)
  {
    if fetch.PageError? {
      return Outcome(1, []);
    }
    var text := ElementText(fetch.matches, fetch.firstText);
    var found := Observed(text);
    if found == args.expected {
      return Outcome(0, []);
    }
    var recipients := ParseRecipients(args.toNumbers);
    var message := ChangeMessage(args.expected, found);
    o := Notify(args, recipients, message, raising);
  }

  // ---------------------------------------------------------------------------
  // Properties of a run
  // ---------------------------------------------------------------------------

  /** Shorthand for `Observed(ElementText(..))` of a page that loaded: the
      text compared with the expected one. */
  function Compared(fetch: BrowserFetch): (found: string)
    requires fetch.PageLoaded?
  {
    Observed(ElementText(fetch.matches, fetch.firstText))
  }

  /** A page whose text equals the expected text exactly ends the run with
      exit code 0 and no notification. */
  lemma MatchSendsNothing(fetch: BrowserFetch, args: Args, raising: set<nat>)
    requires fetch.PageLoaded? && Compared(fetch) == args.expected
    ensures Run(fetch, args, raising) == Outcome(0, [])
  {
  }

  /** A missing element is compared as the stand-in text, so an expected text
      equal to the stand-in silences the alert for a missing element. */
  lemma MissingElementMatchesStandIn(fetch: BrowserFetch, raising: set<nat>, args: Args)
    requires fetch.PageLoaded? && ElementText(fetch.matches, fetch.firstText).None?
    requires args.expected == NotFound
    ensures Run(fetch, args, raising) == Outcome(0, [])
  {
  }

  /** On a difference with no failing transport, every recipient gets one
      e-mail in list order, then Telegram gets one message, all carrying the
      change message, and the run exits 0. */
  lemma MismatchFansOut(fetch: BrowserFetch, args: Args, raising: set<nat>)
    requires fetch.PageLoaded? && Compared(fetch) != args.expected
    requires forall k :: 0 <= k <= |Recipients(args.toNumbers)| ==> k !in raising
    ensures var o := Run(fetch, args, raising);
      var n := |Recipients(args.toNumbers)|;
      var message := ChangeMessage(args.expected, Compared(fetch));
      && o.exitCode == 0
      && |o.sends| == n + 1
      && (forall k :: 0 <= k < n ==> o.sends[k] == Email(args.emailAppPassword, Recipients(args.toNumbers)[k], message))
      && o.sends[n] == Telegram(args.telegramBotToken, args.telegramChatId, message)
  {
  }

  /** On a difference, the first transport call that raises ends the run with
      exit code 1: the attempts up to and including it were made, in order,
      and no later one was. */
  lemma MismatchAbortsOnRaise(fetch: BrowserFetch, args: Args, raising: set<nat>, k: nat)
    requires fetch.PageLoaded? && Compared(fetch) != args.expected
    requires k <= |Recipients(args.toNumbers)| && k in raising
    requires forall j :: 0 <= j < k ==> j !in raising
    ensures var o := Run(fetch, args, raising);
      && o.exitCode == 1
      && |o.sends| == k + 1
      && o.sends == Notifications(args, Recipients(args.toNumbers), ChangeMessage(args.expected, Compared(fetch)))[..k + 1]
  {
  }
}
