/**
 * What one run of a watcher script does, seen from outside: the exit code it
 * returns to the shell and the ordered list of notification attempts it made
 * on the way. Fetching, selector matching and the notification transports
 * are not modelled; each transport call appears only as a `Send` in the trace.
 */
module Dispatch {

  datatype Option<+T> = None | Some(value: T)

  /** One call into a notification transport, with everything it was given. */
  datatype Send =
    | Email(appPassword: string, to: string, body: string)
    | Telegram(botToken: string, chatId: string, body: string)
    | Sms(accountSid: string, authToken: string, from: string, to: string, body: string)

  /** The process exit code and the send attempts, in the order they were made.
      An attempt that raised is still in the trace: it was made. */
  datatype Outcome = Outcome(exitCode: int, sends: seq<Send>)

  /** Makes `attempts` one after the other, stopping at the first one whose
      index is in `raising`. Such an attempt raises an exception nobody
      catches, so the interpreter ends the run with exit code 1 and the later
      attempts never happen; when none raises the run ends with exit code 0.
      `DeliverFrom(attempts, raising, i)` is the rest of that run once
      attempts `0 .. i-1` have gone through. */
  function DeliverFrom(attempts: seq<Send>, raising: set<nat>, i: nat): (o: Outcome)
    requires i <= |attempts|
    ensures o.exitCode == 0 || o.exitCode == 1
    ensures i <= |o.sends| <= |attempts| && o.sends == attempts[..|o.sends|]
    ensures o.exitCode == 0 <==> forall k :: i <= k < |attempts| ==> k !in raising
    ensures o.exitCode == 0 ==> o.sends == attempts
    ensures o.exitCode == 1 ==> i < |o.sends| && |o.sends| - 1 in raising
    ensures forall k :: i <= k < |o.sends| - 1 ==> k !in raising
    decreases |attempts| - i
  {
    if i == |attempts| then Outcome(0, attempts)
    else if i in raising then Outcome(1, attempts[..i + 1])
    else DeliverFrom(attempts, raising, i + 1)
  }

  function Deliver(attempts: seq<Send>, raising: set<nat>): (o: Outcome) {
    DeliverFrom(attempts, raising, 0)
  }

  /** When no attempt raises, every attempt is made and the run exits 0. */
  lemma DeliverAll(attempts: seq<Send>, raising: set<nat>)
    requires forall k :: 0 <= k < |attempts| ==> k !in raising
    ensures Deliver(attempts, raising) == Outcome(0, attempts)
  {
  }

  /** When attempt `k` is the first to raise, attempts `0 .. k` are made (the
      `k`-th included), the rest are not, and the run exits 1. */
  lemma DeliverStopsAt(attempts: seq<Send>, raising: set<nat>, k: nat)
    requires k < |attempts| && k in raising
    requires forall j :: 0 <= j < k ==> j !in raising
    ensures Deliver(attempts, raising) == Outcome(1, attempts[..k + 1])
  {
  }
}
