/** One outbound delivery row and the operations on it (app/mneme/crud/channel.py), the sending loop
    (app/mneme/channels/adapters/feishu.py) and one processing attempt (app/mneme/channels/delivery.py). */
module ChannelDelivery {
  import opened Wrappers

  datatype Status = Pending | Running | Failed | Succeeded | DeadLetter

  /** Times are seconds. */
  datatype Row = Row(parts: seq<string>, partsSent: nat, ids: seq<string>, status: Status, attempts: nat,
                     maxAttempts: int, nextAttemptAt: Option<int>, lockedAt: Option<int>,
                     processedAt: Option<int>, lastError: Option<string>)

  // ----- the row operations as functions

  predicate Claimable(r: Row, now: int) {
    && (r.status == Pending || r.status == Failed)
    && (r.nextAttemptAt.Some? ==> r.nextAttemptAt.value <= now)
  }

  function Claimed(r: Row, now: int): Row {
    r.(status := Running, attempts := r.attempts + 1, lockedAt := Some(now), lastError := None)
  }

  function Completed(r: Row, ids: seq<string>, now: int): Row {
    r.(partsSent := r.partsSent + |ids|, ids := r.ids + ids, status := Succeeded,
       processedAt := Some(now), lockedAt := None, nextAttemptAt := None, lastError := None)
  }

  function Pow2(n: nat): nat {
    if n == 0 then 1 else 2 * Pow2(n - 1)
  }

  /** Exponential back-off, capped at an hour. */
  function Delay(base: int, attempt: nat): int {
    var delay := base * Pow2(if attempt >= 1 then attempt - 1 else 0);
    if delay <= 3600 then delay else 3600
  }

  /** The first delay is the base, each further one twice the one before, and none is longer than an hour. */
  lemma DelayDoubles(base: int, attempt: nat)
    requires base >= 0 && attempt >= 1
    ensures Delay(base, 1) == if base <= 3600 then base else 3600
    ensures Delay(base, attempt + 1) == if 2 * Delay(base, attempt) <= 3600 then 2 * Delay(base, attempt) else 3600
  {
    var p := Pow2(attempt - 1);
    assert Pow2(attempt) == 2 * p && Pow2(0) == 1;
    assert base * (2 * p) == 2 * (base * p) && base * p >= 0;
  }

  /** A failure written back by an attempt that was the `attempt`-th. */
  function Failure(r: Row, ids: seq<string>, attempt: nat, retryable: bool, base: int, now: int, error: string): Row {
    var again := retryable && attempt < r.maxAttempts;
    r.(partsSent := r.partsSent + |ids|, ids := r.ids + ids, status := if again then Failed else DeadLetter,
       nextAttemptAt := if again then Some(now + Delay(base, attempt)) else None, lockedAt := None,
       lastError := Some(if |error| <= 1000 then error else error[..1000]))
  }

  predicate Stale(r: Row, staleBefore: int) {
    r.status == Running && r.lockedAt.Some? && r.lockedAt.value < staleBefore
  }

  function Recovered(r: Row, now: int): Row {
    r.(status := Failed, lockedAt := None, nextAttemptAt := Some(now),
       lastError := Some("channel delivery lease expired"))
  }

  function Retried(r: Row): Row {
    if r.status == Succeeded then r
    else r.(status := Pending, attempts := 0, nextAttemptAt := None, lockedAt := None, processedAt := None,
            lastError := None)
  }

  // ----- sending

  /** What happens when one part is posted. */
  datatype Reply = Accepted(id: string) | Refused(retryable: bool) | Unreachable | Unexpected

  /** What the adapter reports: everything sent, a counted failure, or an exception that counts nothing. */
  datatype Report = AllSent(ids: seq<string>) | Counted(ids: seq<string>, retryable: bool) | Uncounted

  /** What a claimed row becomes by the report of its attempt. */
  function Reported(c: Row, report: Report, base: int, later: int, error: string): Row {
    match report
    case AllSent(ids) => Completed(c, ids, later)
    case Counted(ids, retryable) => Failure(c, ids, c.attempts, retryable, base, later, error)
    case Uncounted => Failure(c, [], c.attempts, true, base, later, "channel delivery failed")
  }

  /** How many of the first `n` posts are accepted before one is not. */
  function AcceptedRun(reply: nat -> Reply, n: nat): (k: nat)
    ensures k <= n
    ensures forall i: nat | i < k :: reply(i).Accepted?
    ensures k < n ==> !reply(k).Accepted?
  {
    if n == 0 then 0
    else
      var k := AcceptedRun(reply, n - 1);
      if k == n - 1 && reply(k).Accepted? then n else k
  }

  function AcceptedIds(reply: nat -> Reply, k: nat): (ids: seq<string>)
    requires forall i: nat | i < k :: reply(i).Accepted?
    ensures |ids| == k && forall i: nat | i < k :: ids[i] == reply(i).id
  {
    if k == 0 then [] else AcceptedIds(reply, k - 1) + [reply(k - 1).id]
  }

  /** The identifiers of the parts that the channel accepts of `n`; none without an access token. */
  function Sent(token: Reply, reply: nat -> Reply, n: nat): (ids: seq<string>)
    ensures |ids| <= n
  {
    if token.Accepted? then AcceptedIds(reply, AcceptedRun(reply, n)) else []
  }

  /** `send`: parts are posted in order until one is not accepted. The report counts exactly the accepted parts,
      except after an unexpected exception. `token` is the outcome of obtaining the access token. */
  method Send(parts: seq<string>, token: Reply, reply: nat -> Reply) returns (report: Report)
    ensures token.Refused? ==> report == Counted([], token.retryable)
    ensures token.Unreachable? ==> report == Counted([], true)
    ensures token.Unexpected? ==> report == Uncounted
    ensures token.Accepted? ==>
              var k := AcceptedRun(reply, |parts|);
              report == if k == |parts| then AllSent(AcceptedIds(reply, k))
                        else if reply(k).Refused? then Counted(AcceptedIds(reply, k), reply(k).retryable)
                        else if reply(k).Unreachable? then Counted(AcceptedIds(reply, k), true)
                        else Uncounted
    ensures report.AllSent? ==> |report.ids| == |parts|
    ensures !report.Uncounted? ==> report.ids == Sent(token, reply, |parts|)
  {
    var sentIds: seq<string> := [];
    match token
    case Refused(retryable) => return Counted(sentIds, retryable);
    case Unreachable => return Counted(sentIds, true);
    case Unexpected => return Uncounted;
    case Accepted(_) =>
    for i := 0 to |parts|
      invariant |sentIds| == i && AcceptedRun(reply, i) == i
      invariant sentIds == AcceptedIds(reply, i)
    {
      if !reply(i).Accepted? {
        RunStops(reply, i, |parts|);
      }
      match reply(i)
      case Refused(retryable) => return Counted(sentIds, retryable);
      case Unreachable => return Counted(sentIds, true);
      case Unexpected => return Uncounted;
      case Accepted(id) => sentIds := sentIds + [id];
    }
    return AllSent(sentIds);
  }

  lemma {:induction false} RunStops(reply: nat -> Reply, i: nat, n: nat)
    requires i < n && AcceptedRun(reply, i) == i && !reply(i).Accepted?
    ensures AcceptedRun(reply, n) == i
    decreases n
  {
    if n > i + 1 {
      RunStops(reply, i, n - 1);
    }
  }

  // ----- the row as updated in place

  class DeliveryRow {
    const parts: seq<string>
    const maxAttempts: int
    var partsSent: nat
    var ids: seq<string>
    var status: Status
    var attempts: nat
    var nextAttemptAt: Option<int>
    var lockedAt: Option<int>
    var processedAt: Option<int>
    var lastError: Option<string>

    constructor (parts: seq<string>, maxAttempts: int)
      ensures State() == Row(parts, 0, [], Pending, 0, maxAttempts, None, None, None, None)
    {
      this.parts, this.maxAttempts := parts, maxAttempts;
      partsSent, ids, status, attempts := 0, [], Pending, 0;
      nextAttemptAt, lockedAt, processedAt, lastError := None, None, None, None;
    }

    function State(): Row
      reads this
    {
      Row(parts, partsSent, ids, status, attempts, maxAttempts, nextAttemptAt, lockedAt, processedAt, lastError)
    }

    /** `claim_channel_delivery`. */
    method Claim(now: int) returns (claimed: bool)
      modifies this
      ensures claimed == Claimable(old(State()), now)
      ensures State() == if claimed then Claimed(old(State()), now) else old(State())
    {
      if status != Pending && status != Failed {
        return false;
      }
      if nextAttemptAt.Some? && nextAttemptAt.value > now {
        return false;
      }
      status := Running;
      attempts := attempts + 1;
      lockedAt := Some(now);
      lastError := None;
      return true;
    }

    /** `complete_channel_delivery`. */
    method Complete(sentIds: seq<string>, now: int)
      modifies this
      ensures State() == Completed(old(State()), sentIds, now)
    {
      partsSent := partsSent + |sentIds|;
      ids := ids + sentIds;
      status := Succeeded;
      processedAt, lockedAt, nextAttemptAt, lastError := Some(now), None, None, None;
    }

    /** `_mark_delivery_failure` and `fail_channel_delivery`. */
    method MarkFailure(sentIds: seq<string>, attempt: nat, retryable: bool, base: int, now: int, error: string)
      modifies this
      ensures State() == Failure(old(State()), sentIds, attempt, retryable, base, now, error)
    {
      var exhausted := attempt >= maxAttempts;
      var next := if retryable && !exhausted then Failed else DeadLetter;
      nextAttemptAt := None;
      if next == Failed {
        nextAttemptAt := Some(now + Delay(base, attempt));
      }
      partsSent := partsSent + |sentIds|;
      ids := ids + sentIds;
      status := next;
      lockedAt := None;
      lastError := Some(if |error| <= 1000 then error else error[..1000]);
    }

    /** `recover_stale_channel_deliveries`, for this row. */
    method Recover(staleBefore: int, now: int) returns (recovered: bool)
      modifies this
      ensures recovered == Stale(old(State()), staleBefore)
      ensures State() == if recovered then Recovered(old(State()), now) else old(State())
    {
      recovered := status == Running && lockedAt.Some? && lockedAt.value < staleBefore;
      if recovered {
        status, lockedAt, nextAttemptAt := Failed, None, Some(now);
        lastError := Some("channel delivery lease expired");
      }
    }

    /** `retry_channel_delivery`: attempts start over, what was sent stays sent. */
    method Retry()
      modifies this
      ensures State() == Retried(old(State()))
    {
      if status == Succeeded {
        return;
      }
      status, attempts := Pending, 0;
      nextAttemptAt, lockedAt, processedAt, lastError := None, None, None, None;
    }

    /** `process_channel_delivery`: claim, send what remains, write back. */
    method Process(now: int, later: int, base: int, token: Reply, reply: nat -> Reply, error: string)
      returns (report: Option<Report>)
      requires partsSent <= |parts|
      modifies this
      ensures report.Some? <==>
                && (old(status) == Pending || old(status) == Failed)
                && (old(nextAttemptAt).Some? ==> old(nextAttemptAt).value <= now)
      ensures report.None? <==> !Claimable(old(State()), now)
      ensures report.None? ==> State() == old(State())
      // the attempt counts, the lease is given back, and what was sent is recorded
      ensures report.Some? ==>
                && attempts == old(attempts) + 1 && lockedAt == None
                && var sent := if report.value.Uncounted? then [] else report.value.ids;
                   partsSent == old(partsSent) + |sent| && ids == old(ids) + sent
      ensures report.Some? && report.value.AllSent? ==>
                status == Succeeded && nextAttemptAt == None && processedAt == Some(later) && lastError == None
      // a permanent failure is not retried
      ensures report.Some? && report.value.Counted? && !report.value.retryable ==>
                status == DeadLetter && nextAttemptAt == None
      // any other failure is retried while attempts are left
      ensures report.Some? && !report.value.AllSent? && (report.value.Uncounted? || report.value.retryable) ==>
                if old(attempts) + 1 < maxAttempts
                then status == Failed && nextAttemptAt == Some(later + Delay(base, old(attempts) + 1))
                else status == DeadLetter && nextAttemptAt == None
      ensures report.Some? && !report.value.AllSent? ==>
                && processedAt == old(processedAt) && lastError.Some? && |lastError.value| <= 1000
                && lastError.value <= if report.value.Uncounted? then "channel delivery failed" else error
      ensures report.Some? ==> State() == Reported(Claimed(old(State()), now), report.value, base, later, error)
      ensures report.Some? && report.value.AllSent? ==>
                |report.value.ids| == |parts| - old(partsSent) && partsSent == |parts|
      ensures report.Some? && !report.value.Uncounted? ==>
                report.value.ids == Sent(token, reply, |parts| - old(partsSent))
    {
      var claimed := Claim(now);
      if !claimed {
        return None;
      }
      var attempt := attempts;
      var r := Send(parts[partsSent..], token, reply);
      match r {
        case AllSent(sentIds) => Complete(sentIds, later);
        case Counted(sentIds, retryable) => MarkFailure(sentIds, attempt, retryable, base, later, error);
        case Uncounted => MarkFailure([], attempt, true, base, later, "channel delivery failed");
      }
      return Some(r);
    }
  }
}
