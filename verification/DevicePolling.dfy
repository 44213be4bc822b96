/**
 Polling for the tokens of a device login, as section 3.5 of RFC 8628 asks: no faster than the interval,
 which every `slow_down` raises by five seconds, and never after the device code has expired.
 */
module DevicePolling {
  import opened Text

  const MAX_U64 := 0xFFFF_FFFF_FFFF_FFFF

  datatype Answer = Pending | SlowDown | Denied | ExpiredToken | Authorized | RequestFailed | CancelledMeanwhile
    | TimedOut

  /**
   What one round meets: a cancellation before or during the wait, how much longer than asked the wait
   took, and the answer and how long it took.
   */
  datatype Round = Round(cancelled: bool, late: nat, answer: Answer, took: nat)

  datatype Outcome = Granted | Failed | Expired | Cancelled | StillPolling

  /** One request: the interval of its time, when it was made, and when and what it was answered. */
  datatype Poll = Poll(interval: nat, at: int, answered: int, answer: Answer)

  function SaturatingAdd(a: nat, b: nat): nat {
    if a + b > MAX_U64 then MAX_U64 else a + b
  }

  function Remaining(now: int, expiresAt: int): Option<nat> {
    if expiresAt - now > 0 then Some(expiresAt - now) else None
  }

  /** The interval that holds after a poll. */
  function IntervalAfter(p: Poll): nat {
    if p.answer == SlowDown then SaturatingAdd(p.interval, 5) else p.interval
  }

  predicate GoesOn(p: Poll) {
    p.answer == Pending || p.answer == SlowDown
  }

  /** The first poll comes at least the initial interval after the start. */
  predicate StartsPaced(start: int, initial: nat, polls: seq<Poll>) {
    polls != [] ==> polls[0].interval == initial && polls[0].at - start >= initial
  }

  /** Every further one at least the interval of its time after the answer before it, which let the polling go on. */
  predicate Follows(p: Poll, q: Poll) {
    GoesOn(p) && q.interval == IntervalAfter(p) && q.at - p.answered >= q.interval
  }

  predicate Paced(polls: seq<Poll>) {
    |polls| <= 1 || (Follows(polls[|polls| - 2], polls[|polls| - 1]) && Paced(polls[..|polls| - 1]))
  }

  ghost predicate BeforeExpiry(expiresAt: int, polls: seq<Poll>) {
    forall k | 0 <= k < |polls| :: polls[k].at < expiresAt && polls[k].at <= polls[k].answered
  }

  function SlowDowns(polls: seq<Poll>): nat {
    if polls == [] then 0
    else SlowDowns(polls[..|polls| - 1]) + if polls[|polls| - 1].answer == SlowDown then 1 else 0
  }

  /** So an interval is the initial one and five seconds for every `slow_down` before, up to the 64-bit limit. */
  lemma {:induction false} IntervalCountsSlowDowns(start: int, initial: nat, polls: seq<Poll>)
    requires initial <= MAX_U64 && polls != [] && StartsPaced(start, initial, polls) && Paced(polls)
    ensures var sum := initial + 5 * SlowDowns(polls[..|polls| - 1]);
      polls[|polls| - 1].interval == if sum < 0x1_0000_0000_0000_0000 then sum else 0xFFFF_FFFF_FFFF_FFFF
  {
    if |polls| > 1 {
      IntervalCountsSlowDowns(start, initial, polls[..|polls| - 1]);
    }
  }

  function OutcomeOf(answer: Answer): Outcome {
    match answer
    case Pending => StillPolling
    case SlowDown => StillPolling
    case Denied => Failed
    case ExpiredToken => Expired
    case Authorized => Granted
    case RequestFailed => Failed
    case CancelledMeanwhile => Cancelled
    case TimedOut => Expired
  }

  /** When the last answer came, or the login began. */
  function LastTime(start: int, polls: seq<Poll>): int {
    if polls == [] then start else polls[|polls| - 1].answered
  }

  /** The interval in force after these polls. */
  function IntervalNow(initial: nat, polls: seq<Poll>): nat {
    if polls == [] then initial else IntervalAfter(polls[|polls| - 1])
  }

  /** The poll of a round: made after the full interval and the round's delay, and answered as the round says. */
  predicate IsPollOf(r: Round, last: int, interval: nat, p: Poll) {
    && !r.cancelled
    && p.answer == r.answer
    && p.interval == interval
    && p.at == last + interval + r.late
    && p.answered == p.at + r.took
  }

  /** The polls are those of the first rounds, each after an answer that let the polling go on. */
  predicate Met(start: int, initial: nat, rounds: seq<Round>, polls: seq<Poll>) {
    |polls| <= |rounds|
    && (polls == []
        || var front, last := polls[..|polls| - 1], polls[|polls| - 1];
           && Met(start, initial, rounds, front)
           && (front != [] ==> GoesOn(front[|front| - 1]))
           && IsPollOf(rounds[|front|], LastTime(start, front), IntervalNow(initial, front), last))
  }

  /**
   Why the polling is where it is: the last answer ended it; or it has met every round; or it was
   cancelled in the next one, or the next poll would come too late.
   */
  ghost predicate Ended(
      start: int, expiresAt: int, initial: nat, rounds: seq<Round>, polls: seq<Poll>, outcome: Outcome)
    requires |polls| <= |rounds|
  {
    var n := |polls|;
    if n > 0 && !GoesOn(polls[n - 1]) then outcome == OutcomeOf(polls[n - 1].answer)
    else if n == |rounds| then outcome == StillPolling
    else if rounds[n].cancelled then outcome == Cancelled
    else outcome == Expired && LastTime(start, polls) + IntervalNow(initial, polls) + rounds[n].late >= expiresAt
  }

  lemma OneMore(start: int, expiresAt: int, initial: nat, rounds: seq<Round>, polls: seq<Poll>, p: Poll)
    requires Met(start, initial, rounds, polls) && (polls != [] ==> GoesOn(polls[|polls| - 1])) && |polls| < |rounds|
    requires IsPollOf(rounds[|polls|], LastTime(start, polls), IntervalNow(initial, polls), p)
    requires BeforeExpiry(expiresAt, polls) && p.at < expiresAt
    ensures Met(start, initial, rounds, polls + [p]) && BeforeExpiry(expiresAt, polls + [p])
  {
    assert (polls + [p])[..|polls|] == polls;
  }

  /** So every poll keeps the interval of its time. */
  lemma {:induction false} MetIsPaced(start: int, initial: nat, rounds: seq<Round>, polls: seq<Poll>)
    requires Met(start, initial, rounds, polls)
    ensures StartsPaced(start, initial, polls) && Paced(polls)
  {
    if polls != [] {
      MetIsPaced(start, initial, rounds, polls[..|polls| - 1]);
    }
  }

  /**
   The polling loop, over any rounds: it polls in each round until an answer ends it, it is cancelled or
   the code expires, and its outcome is what ended it.
   */
  method PollForTokens(start: int, expiresAt: int, initial: nat, rounds: seq<Round>)
    returns (outcome: Outcome, polls: seq<Poll>)
    ensures Met(start, initial, rounds, polls) && BeforeExpiry(expiresAt, polls)
    ensures Ended(start, expiresAt, initial, rounds, polls, outcome)
    ensures StartsPaced(start, initial, polls) && Paced(polls)
    ensures outcome == Granted <==> EndedBy(polls, {Authorized})
    ensures outcome == Failed <==> EndedBy(polls, {Denied, RequestFailed})
    ensures EndedBy(polls, {ExpiredToken, TimedOut}) ==> outcome == Expired
    ensures EndedBy(polls, {CancelledMeanwhile}) ==> outcome == Cancelled
    ensures outcome == Expired && !EndedBy(polls, {ExpiredToken, TimedOut}) ==>
      && |polls| < |rounds| && !rounds[|polls|].cancelled
      && LastTime(start, polls) + IntervalNow(initial, polls) + rounds[|polls|].late >= expiresAt
    ensures outcome == Cancelled && !EndedBy(polls, {CancelledMeanwhile}) ==>
      |polls| < |rounds| && rounds[|polls|].cancelled
    ensures outcome == StillPolling ==> |polls| == |rounds|
  {
    outcome, polls := RunPolling(start, expiresAt, initial, rounds);
    MetIsPaced(start, initial, rounds, polls);
  }

  /** The last answer is one of these. */
  predicate EndedBy(polls: seq<Poll>, answers: set<Answer>) {
    polls != [] && polls[|polls| - 1].answer in answers
  }

  method RunPolling(start: int, expiresAt: int, initial: nat, rounds: seq<Round>)
    returns (outcome: Outcome, polls: seq<Poll>)
    ensures Met(start, initial, rounds, polls) && BeforeExpiry(expiresAt, polls)
    ensures Ended(start, expiresAt, initial, rounds, polls, outcome)
  {
    var now, interval := start, initial;
    polls := [];
    for i := 0 to |rounds|
      invariant |polls| == i && now == LastTime(start, polls) && interval == IntervalNow(initial, polls)
      invariant i > 0 ==> GoesOn(polls[i - 1])
      invariant Met(start, initial, rounds, polls) && BeforeExpiry(expiresAt, polls)
    {
      if rounds[i].cancelled {
        return Cancelled, polls;
      }
      var remaining := Remaining(now, expiresAt);
      if remaining.None? {
        return Expired, polls;
      }
      var wait := if interval < remaining.value then interval else remaining.value;
      now := now + wait + rounds[i].late;
      if now >= expiresAt {
        return Expired, polls;
      }
      var poll := Poll(interval, now, now + rounds[i].took, rounds[i].answer);
      OneMore(start, expiresAt, initial, rounds, polls, poll);
      polls := polls + [poll];
      now := poll.answered;
      outcome := OutcomeOf(poll.answer);
      if outcome != StillPolling {
        return;
      }
      if poll.answer == SlowDown {
        interval := SaturatingAdd(interval, 5);
      }
    }
    outcome := StillPolling;
  }
}
