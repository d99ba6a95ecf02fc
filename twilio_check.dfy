/**
 * The plain-HTTP watcher: read four Twilio settings from the environment,
 * fetch the page, take the text of the first element the selector matches,
 * compare it with the expected text and, on a difference, send one SMS
 * through Twilio. Straight-line code with early returns, so one function.
 */
module TwilioCheck {
  import opened Dispatch
  import PyStr

  /** The four Twilio environment variables; `None` when one is unset. */
  datatype TwilioEnv = TwilioEnv(
    accountSid: Option<string>,
    authToken: Option<string>,
    fromNumber: Option<string>,
    toNumber: Option<string>)

  /** A setting counts as present when it is set and not empty (Python truthiness). */
  predicate Present(v: Option<string>) {
    v.Some? && v.value != []
  }

  /** Python's `all(values)`: true when every value is truthy, checked from
      the first to the last; true of an empty list. */
  function All(values: seq<Option<string>>): (b: bool)
    ensures b <==> forall i :: 0 <= i < |values| ==> Present(values[i])
  {
    values == [] || (Present(values[0]) && All(values[1..]))
  }

  /** The settings test of the script: `all` over the four settings. */
  predicate Configured(env: TwilioEnv)
    ensures Configured(env) ==>
      Present(env.accountSid) && Present(env.authToken) && Present(env.fromNumber) && Present(env.toNumber)
  {
    var values := [env.accountSid, env.authToken, env.fromNumber, env.toNumber];
    assert values[0] == env.accountSid && values[1] == env.authToken;
    assert values[2] == env.fromNumber && values[3] == env.toNumber;
    All(values)
  }

  /** The script goes on only when each of the four settings is set and not
      empty; a single unset or empty one stops it. */
  lemma ConfiguredMeansAllSet(env: TwilioEnv)
    ensures Configured(env) <==>
      && env.accountSid.Some? && env.accountSid.value != []
      && env.authToken.Some? && env.authToken.value != []
      && env.fromNumber.Some? && env.fromNumber.value != []
      && env.toNumber.Some? && env.toNumber.value != []
  {
  }

  /** What the HTTP fetch produced: a request error (connection, timeout or an
      error status), or a page on which the selector found the text `element`
      (absent when nothing matched). */
  datatype HttpFetch =
    | RequestFailed
    | Fetched(element: Option<string>)

  /** The text compared with the expected one: a missing element counts as
      the empty string. */
  function FoundText(element: Option<string>): (found: string)
    ensures element.Some? ==> found == element.value
    ensures element.None? ==> found == []
  {
    match element
    case Some(t) => t
    case None => ""
  }

  /** The SMS body: a fixed headline, then the URL, the expected text and
      the found text, each on a line of its own. */
  function AlertMessage(url: string, expected: string, found: string): (m: string)
    ensures var u := |AlertHeadline| + |"\nURL: "|;
      var e := u + |url| + |"\nExpected: "|;
      var f := e + |expected| + |"\nFound: "|;
      && |m| == f + |found|
      && m[..u] == AlertHeadline + "\nURL: "
      && m[u..u + |url|] == url
      && m[u + |url|..e] == "\nExpected: "
      && m[e..e + |expected|] == expected
      && m[e + |expected|..f] == "\nFound: "
      && m[f..] == found
  {
    var m := AlertHeadline + "\n"
      + (("URL: " + url) + "\n" + (("Expected: " + expected) + "\n" + ("Found: " + found)));
    assert m == (AlertHeadline + "\nURL: ") + url + "\nExpected: " + expected + "\nFound: " + found;
    m
  }

  const AlertHeadline: string := "Website check alert: text changed."

  /** One run of the Twilio watcher. `smsSucceeds` says whether the Twilio
      call returns normally; when it raises, the run catches the exception
      and exits 1, but the attempt was made. */
  function Run(env: TwilioEnv, url: string, expected: string, fetch: HttpFetch, smsSucceeds: bool): (o: Outcome)
    ensures |o.sends| <= 1
    ensures o.exitCode == 0 <==>
      Configured(env) && fetch.Fetched? && (FoundText(fetch.element) == expected || smsSucceeds)
    ensures o.exitCode == 0 || o.exitCode == 1
    ensures |o.sends| == 1 <==> Configured(env) && fetch.Fetched? && FoundText(fetch.element) != expected
  {
    if !Configured(env) then Outcome(1, [])
    else match fetch
      case RequestFailed => Outcome(1, [])
      case Fetched(element) =>
        var found := FoundText(element);
        if found == expected then Outcome(0, [])
        else
          var sms := Sms(env.accountSid.value, env.authToken.value, env.fromNumber.value,
                         env.toNumber.value, AlertMessage(url, expected, found));
          Outcome(if smsSucceeds then 0 else 1, [sms])
  }

  /** A missing or empty Twilio setting ends the run with exit code 1 before
      anything is fetched or sent. */
  lemma MissingSettingExits1(env: TwilioEnv, url: string, expected: string, fetch: HttpFetch, smsSucceeds: bool)
    requires !Configured(env)
    ensures Run(env, url, expected, fetch, smsSucceeds) == Outcome(1, [])
  {
  }

  /** A failed request ends the run with exit code 1 and no SMS. */
  lemma RequestFailureExits1(env: TwilioEnv, url: string, expected: string, smsSucceeds: bool)
    ensures Run(env, url, expected, RequestFailed, smsSucceeds) == Outcome(1, [])
  {
  }

  /** An exact, case-sensitive match ends the run with exit code 0 and no SMS. */
  lemma MatchSendsNothing(env: TwilioEnv, url: string, expected: string, element: Option<string>, smsSucceeds: bool)
    requires Configured(env) && FoundText(element) == expected
    ensures Run(env, url, expected, Fetched(element), smsSucceeds) == Outcome(0, [])
  {
  }

  /** Because a missing element counts as empty text, an empty expected text
      means a missing element raises no alert. */
  lemma MissingElementMatchesEmpty(env: TwilioEnv, url: string, smsSucceeds: bool)
    requires Configured(env)
    ensures Run(env, url, "", Fetched(None), smsSucceeds) == Outcome(0, [])
  {
  }

  /** On a difference, exactly one SMS is attempted, from and to the
      configured numbers with the configured account, carrying the alert; the
      exit code is 0 when it went through and 1 when the call raised. */
  lemma MismatchSendsOneSms(env: TwilioEnv, url: string, expected: string, element: Option<string>, smsSucceeds: bool)
    requires Configured(env) && FoundText(element) != expected
    ensures var o := Run(env, url, expected, Fetched(element), smsSucceeds);
      && o.exitCode == (if smsSucceeds then 0 else 1)
      && o.sends == [Sms(env.accountSid.value, env.authToken.value, env.fromNumber.value,
                         env.toNumber.value, AlertMessage(url, expected, FoundText(element)))]
  {
  }

  lemma SplitFourLines(l0: string, l1: string, l2: string, l3: string)
    requires '\n' !in l0 && '\n' !in l1 && '\n' !in l2 && '\n' !in l3
    ensures PyStr.Split(l0 + "\n" + (l1 + "\n" + (l2 + "\n" + l3)), '\n') == [l0, l1, l2, l3]
  {
    var t2 := l2 + "\n" + l3;
    var t1 := l1 + "\n" + t2;
    assert PyStr.Split(t2, '\n') == [l2, l3] by {
      PyStr.SplitNoSeparator(l3, '\n');
      PyStr.SplitPiece(l2, '\n', l3);
    }
    assert PyStr.Split(t1, '\n') == [l1, l2, l3] by {
      PyStr.SplitPiece(l1, '\n', t2);
    }
    assert PyStr.Split(l0 + "\n" + t1, '\n') == [l0, l1, l2, l3] by {
      PyStr.SplitPiece(l0, '\n', t1);
    }
  }

  /** The alert has exactly four lines, headed as below, when none of the
      URL, the expected text and the found text contains a line break. */
  lemma AlertMessageLines(url: string, expected: string, found: string)
    requires '\n' !in url && '\n' !in expected && '\n' !in found
    ensures PyStr.Split(AlertMessage(url, expected, found), '\n')
      == [AlertHeadline, "URL: " + url, "Expected: " + expected, "Found: " + found]
  {
    SplitFourLines(AlertHeadline, "URL: " + url, "Expected: " + expected, "Found: " + found);
  }
}
