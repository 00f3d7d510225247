/** The delivery protocol as a state machine: workers that have claimed the row, what the recipient has received,
    and every step that can happen to them (app/mneme/channels/delivery.py, app/mneme/crud/channel.py).
    There is no fencing token: the row does not know which worker writes back. */
module DeliveryProtocol {
  import opened Wrappers
  import opened ChannelDelivery

  /** A message received: which part it is, its text, and the identifier the channel gave it. */
  datatype Message = Message(index: nat, content: string, id: string)

  /** A worker between claim and write-back: where it started, which attempt it is, what it has delivered. */
  datatype Worker = Worker(start: nat, attempt: nat, delivered: seq<string>)

  datatype System = System(row: Row, workers: seq<Worker>, log: seq<Message>)

  datatype Step =
    | Claim(now: int)
    | Deliver(worker: nat, id: string)
    | WriteSuccess(worker: nat, now: int)
    | WriteFailure(worker: nat, reported: seq<string>, retryable: bool, base: int, now: int, error: string)
    | Recover(staleBefore: int, now: int)
    | Retry
    | Crash(worker: nat)

  predicate Enabled(s: System, step: Step) {
    match step
    case Claim(now) => Claimable(s.row, now)
    case Deliver(w, _) => w < |s.workers| && s.workers[w].start + |s.workers[w].delivered| < |s.row.parts|
    case WriteSuccess(w, _) => w < |s.workers| && s.workers[w].start + |s.workers[w].delivered| == |s.row.parts|
    case WriteFailure(w, _, _, _, _, _) => w < |s.workers|
    case Recover(staleBefore, _) => Stale(s.row, staleBefore)
    case Retry => s.row.status != Succeeded
    case Crash(w) => w < |s.workers|
  }

  function Without(ws: seq<Worker>, w: nat): seq<Worker>
    requires w < |ws|
  {
    ws[..w] + ws[w + 1..]
  }

  function Next(s: System, step: Step): System
    requires Enabled(s, step)
  {
    match step
    case Claim(now) =>
      var row := Claimed(s.row, now);
      System(row, s.workers + [Worker(s.row.partsSent, row.attempts, [])], s.log)
    case Deliver(w, id) =>
      var k := s.workers[w];
      var i := k.start + |k.delivered|;
      System(s.row, s.workers[w := k.(delivered := k.delivered + [id])], s.log + [Message(i, s.row.parts[i], id)])
    case WriteSuccess(w, now) =>
      System(Completed(s.row, s.workers[w].delivered, now), Without(s.workers, w), s.log)
    case WriteFailure(w, reported, retryable, base, now, error) =>
      System(Failure(s.row, reported, s.workers[w].attempt, retryable, base, now, error), Without(s.workers, w), s.log)
    case Recover(_, now) => s.(row := Recovered(s.row, now))
    case Retry => s.(row := Retried(s.row))
    case Crash(w) => s.(workers := Without(s.workers, w))
  }

  function Initial(parts: seq<string>, maxAttempts: int): System {
    System(Row(parts, 0, [], Pending, 0, maxAttempts, None, None, None, None), [], [])
  }

  /** Failures report exactly what was delivered; no lease is taken over and no retry is made while a worker can still
      write back; a worker that dies has delivered nothing. */
  predicate Disciplined(s: System, step: Step)
    requires Enabled(s, step)
  {
    match step
    case WriteFailure(w, reported, _, _, _, _) => reported == s.workers[w].delivered
    case Recover(_, _) => s.workers == []
    case Retry => s.workers == []
    case Crash(w) => s.workers[w].delivered == []
    case _ => true
  }

  // ----- the invariant

  function Ids(log: seq<Message>): (r: seq<string>)
    ensures |r| == |log| && forall i | 0 <= i < |log| :: r[i] == log[i].id
  {
    if log == [] then [] else [log[0].id] + Ids(log[1..])
  }

  /** The recipient has the first parts, each once, in order. */
  ghost predicate InOrder(parts: seq<string>, log: seq<Message>) {
    && |log| <= |parts|
    && forall i | 0 <= i < |log| :: log[i].index == i && log[i].content == parts[i]
  }

  /** At most one worker, which holds the running row and started where the record ends; what is recorded and what
      the worker has delivered are together what the recipient has. */
  ghost predicate Consistent(s: System) {
    && InOrder(s.row.parts, s.log)
    && |s.row.ids| == s.row.partsSent <= |s.log|
    && s.row.ids == Ids(s.log)[..s.row.partsSent]
    && |s.workers| <= 1
    && (s.workers == [] ==> |s.log| == s.row.partsSent)
    && (s.workers != [] ==>
          && s.row.status == Running
          && s.workers[0].start == s.row.partsSent
          && s.workers[0].delivered == Ids(s.log)[s.row.partsSent..])
    && (s.row.status == Succeeded ==> s.row.partsSent == |s.row.parts|)
  }

  /** A step from a consistent state leads to a consistent state exactly if it is disciplined. */
  lemma ConsistentIffDisciplined(s: System, step: Step)
    requires Consistent(s) && Enabled(s, step)
    ensures Consistent(Next(s, step)) <==> Disciplined(s, step)
  {
    hide Ids, InOrder;
    match step
    case Claim(_) => LengthOfIds(s.log, s.row.partsSent);
    case Deliver(w, id) => DeliverKeeps(s, w, id);
    case WriteSuccess(w, now) => WriteBack(s, s.workers[w].delivered);
    case WriteFailure(w, reported, _, _, _, _) => WriteBack(s, reported);
    case Recover(_, _) =>
    case Retry =>
    case Crash(w) => LengthOfIds(s.log, s.row.partsSent);
  }

  lemma IdsGrow(log: seq<Message>, m: Message)
    ensures Ids(log + [m]) == Ids(log) + [m.id]
  {
  }

  lemma Appended(ids: seq<string>, id: string, n: nat)
    requires n <= |ids|
    ensures (ids + [id])[..n] == ids[..n] && (ids + [id])[n..] == ids[n..] + [id]
  {
  }

  lemma OrderGrows(parts: seq<string>, log: seq<Message>, m: Message)
    requires InOrder(parts, log) && |log| < |parts| && m.index == |log| && m.content == parts[|log|]
    ensures InOrder(parts, log + [m])
  {
  }

  /** One more message in order. */
  lemma LogGrows(parts: seq<string>, log: seq<Message>, id: string, n: nat)
    requires InOrder(parts, log) && n <= |log| < |parts|
    ensures var grown := log + [Message(|log|, parts[|log|], id)];
            && InOrder(parts, grown)
            && Ids(grown)[..n] == Ids(log)[..n] && Ids(grown)[n..] == Ids(log)[n..] + [id]
  {
    hide Ids, InOrder;
    var m := Message(|log|, parts[|log|], id);
    OrderGrows(parts, log, m);
    IdsGrow(log, m);
    Appended(Ids(log), id, n);
  }

  lemma DeliverKeeps(s: System, w: nat, id: string)
    requires Consistent(s) && Enabled(s, Deliver(w, id))
    ensures Consistent(Next(s, Deliver(w, id)))
  {
    hide InOrder, Ids;
    var k, n := s.workers[0], |s.log|;
    LengthOfIds(s.log, s.row.partsSent);
    LogGrows(s.row.parts, s.log, id, s.row.partsSent);
    DeliverChanges(s, id);
    hide Next;
  }

  lemma LengthOfIds(log: seq<Message>, n: nat)
    requires n <= |log|
    ensures |Ids(log)[n..]| == |log| - n
  {
  }

  lemma DeliverChanges(s: System, id: string)
    requires |s.workers| == 1 && s.workers[0].start + |s.workers[0].delivered| == |s.log| < |s.row.parts|
    ensures Enabled(s, Deliver(0, id))
    ensures Next(s, Deliver(0, id))
            == System(s.row, [s.workers[0].(delivered := s.workers[0].delivered + [id])],
                      s.log + [Message(|s.log|, s.row.parts[|s.log|], id)])
  {
    var k := s.workers[0];
    assert s.workers[0 := k.(delivered := k.delivered + [id])] == [k.(delivered := k.delivered + [id])];
  }

  /** Appending reported identifiers to the record completes it exactly if they are the delivered ones. */
  lemma WriteBack(s: System, reported: seq<string>)
    requires Consistent(s) && s.workers != []
    ensures s.row.ids + s.workers[0].delivered == Ids(s.log) == Ids(s.log)[..|s.log|]
    ensures |s.log| == s.row.partsSent + |reported| && s.row.ids + reported == Ids(s.log)
            <==> reported == s.workers[0].delivered
  {
    var all, n := Ids(s.log), s.row.partsSent;
    assert all == all[..n] + all[n..];
    if s.row.ids + reported == all {
      assert reported == (s.row.ids + reported)[n..];
    }
  }

  // ----- runs

  /** Every run in which each step is enabled and disciplined. */
  ghost predicate DisciplinedRun(states: seq<System>, steps: seq<Step>) {
    && |states| == |steps| + 1
    && (exists parts, maxAttempts :: states[0] == Initial(parts, maxAttempts))
    && forall i | 0 <= i < |steps| :: Enabled(states[i], steps[i]) && Disciplined(states[i], steps[i])
                                     && states[i + 1] == Next(states[i], steps[i])
  }

  /** In every disciplined run the recipient has a prefix of the parts, each delivered exactly once and in order; the
      recorded identifiers are those of the recorded parts; and `succeeded` means that every part was delivered. */
  lemma {:induction false} ExactlyOnceInOrder(states: seq<System>, steps: seq<Step>, i: nat)
    requires DisciplinedRun(states, steps) && i < |states|
    ensures Consistent(states[i]) && InOrder(states[i].row.parts, states[i].log)
    ensures states[i].row.ids == Ids(states[i].log)[..states[i].row.partsSent]
    ensures states[i].row.status == Succeeded ==>
              |states[i].log| == |states[i].row.parts| && states[i].row.ids == Ids(states[i].log)
    decreases i
  {
    if i > 0 {
      ExactlyOnceInOrder(states, steps, i - 1);
      assert states[i - 1 + 1] == Next(states[i - 1], steps[i - 1]);
      ConsistentIffDisciplined(states[i - 1], steps[i - 1]);
    }
    var s := states[i];
    if s.row.status == Succeeded {
      assert s.workers == [];
    }
  }

  // ----- what an undisciplined step can do to the recipient

  /** The recipient has some part twice. */
  ghost predicate Twice(log: seq<Message>) {
    exists i, j :: 0 <= i < j < |log| && log[i].index == log[j].index
  }

  /** What is recorded is what the recipient has of the first parts. */
  ghost predicate Truthful(s: System) {
    |s.row.ids| == s.row.partsSent <= |s.log| && s.row.ids == Ids(s.log)[..s.row.partsSent]
  }

  ghost predicate Harmed(s: System) {
    Twice(s.log) || !Truthful(s)
  }

  /** Enabled and disciplined steps lead from `s` to `u`. */
  ghost predicate Leads(s: System, steps: seq<Step>, u: System)
    decreases |steps|
  {
    if steps == [] then u == s
    else Enabled(s, steps[0]) && Disciplined(s, steps[0]) && Leads(Next(s, steps[0]), steps[1..], u)
  }

  /** Even if everything that follows is disciplined, a part can be received twice or the record be wrong. */
  ghost predicate CanHarm(s: System) {
    exists steps, u :: Leads(s, steps, u) && Harmed(u)
  }

  /** The steps that put the recipient at risk: a report that is not exact, a death after a delivery, and a takeover
      from a live worker while parts remain unrecorded. */
  predicate Risky(s: System, step: Step)
    requires Enabled(s, step)
  {
    !Disciplined(s, step) && (step.WriteFailure? || s.row.partsSent < |s.row.parts|)
  }

  /** From a consistent state exactly the risky steps can harm. */
  lemma CanHarmIffRisky(s: System, step: Step)
    requires Consistent(s) && Enabled(s, step)
    ensures CanHarm(Next(s, step)) <==> Risky(s, step)
  {
    if Disciplined(s, step) {
      ConsistentIffDisciplined(s, step);
      NeverHarmed(Next(s, step));
    } else {
      match step
      case WriteFailure(w, reported, _, _, _, _) => InexactReportHarms(s, step);
      case Crash(_) => LostDeliveriesHarm(Next(s, step), 0);
      case Recover(_, _) => TakeoverHarmsIff(s, step);
      case Retry => TakeoverHarmsIff(s, step);
    }
  }

  lemma {:induction false} ConsistentForever(s: System, steps: seq<Step>, u: System)
    requires Consistent(s) && Leads(s, steps, u)
    ensures Consistent(u)
    decreases |steps|
  {
    if steps != [] {
      ConsistentIffDisciplined(s, steps[0]);
      hide Consistent, Next;
      ConsistentForever(Next(s, steps[0]), steps[1..], u);
    }
  }

  lemma NeverHarmed(s: System)
    requires Consistent(s)
    ensures !CanHarm(s)
  {
    forall steps, u | Leads(s, steps, u) ensures !Harmed(u) {
      ConsistentForever(s, steps, u);
    }
  }

  /** A row at rest that has recorded fewer parts than were received is sent again after a manual retry. */
  lemma LostDeliveriesHarm(s: System, now: int)
    requires s.workers == [] && s.row.status != Succeeded
    requires InOrder(s.row.parts, s.log) && s.row.partsSent < |s.log|
    ensures CanHarm(s)
  {
    var steps := [Retry, Claim(now), Deliver(0, "")];
    var s1 := Next(s, Retry);
    var s2 := Next(s1, Claim(now));
    assert s2.workers == [Worker(s.row.partsSent, 1, [])];
    var s3 := Next(s2, Deliver(0, ""));
    LeadsThree(s, steps[0], steps[1], steps[2]);
    var k, n := s.row.partsSent, |s.log|;
    assert s3.log[k].index == k == s3.log[n].index;
    assert Twice(s3.log);
  }

  lemma LeadsThree(s: System, a: Step, b: Step, c: Step)
    requires Enabled(s, a) && Disciplined(s, a)
    requires Enabled(Next(s, a), b) && Disciplined(Next(s, a), b)
    requires Enabled(Next(Next(s, a), b), c) && Disciplined(Next(Next(s, a), b), c)
    ensures Leads(s, [a, b, c], Next(Next(Next(s, a), b), c))
  {
    hide Next, Enabled, Disciplined;
    LeadsTwo(Next(s, a), b, c);
    LeadsFirst(s, a, [b, c], Next(Next(Next(s, a), b), c));
    assert [a] + [b, c] == [a, b, c];
  }

  lemma InexactReportHarms(s: System, step: Step)
    requires Consistent(s) && step.WriteFailure? && Enabled(s, step) && !Disciplined(s, step)
    ensures CanHarm(Next(s, step))
  {
    var u := Next(s, step);
    assert u.workers == [] && u.row.status != Succeeded;
    if Truthful(u) {
      ReportedTooFew(s, step.reported);
      LostDeliveriesHarm(u, 0);
    } else {
      assert Leads(u, [], u);
    }
  }

  /** A report that leaves the record right without being exact counts too few parts. */
  lemma ReportedTooFew(s: System, reported: seq<string>)
    requires Consistent(s) && s.workers != [] && reported != s.workers[0].delivered
    requires s.row.partsSent + |reported| <= |s.log|
    requires s.row.ids + reported == Ids(s.log)[..s.row.partsSent + |reported|]
    ensures s.row.partsSent + |reported| < |s.log|
  {
    WriteBack(s, reported);
  }

  // ----- takeover

  /** Everything is recorded, and every worker has nothing left to send. */
  ghost predicate Settled(s: System) {
    && Truthful(s) && InOrder(s.row.parts, s.log) && s.row.partsSent == |s.row.parts|
    && forall k | k in s.workers :: k.start == |s.row.parts| && k.delivered == []
  }

  lemma SettledStep(s: System, step: Step)
    requires Settled(s) && Enabled(s, step) && (Disciplined(s, step) || step.Recover? || step.Retry?)
    ensures Settled(Next(s, step))
  {
    match step
    case WriteSuccess(w, _) => SettledWrite(s, w);
    case WriteFailure(w, reported, _, _, _, _) => SettledWrite(s, w);
    case Crash(w) => SettledWrite(s, w);
    case _ =>
  }

  lemma SettledWrite(s: System, w: nat)
    requires Settled(s) && w < |s.workers|
    ensures s.workers[w].delivered == [] && s.row.ids + [] == s.row.ids
    ensures forall k | k in Without(s.workers, w) :: k in s.workers
  {
    assert s.workers[w] in s.workers;
  }

  lemma {:induction false} SettledForever(s: System, steps: seq<Step>, u: System)
    requires Settled(s) && Leads(s, steps, u)
    ensures !Harmed(u)
    decreases |steps|
  {
    if steps != [] {
      SettledStep(s, steps[0]);
      hide Settled, Next;
      SettledForever(Next(s, steps[0]), steps[1..], u);
    }
  }

  /** Every run in which no step is risky. */
  ghost predicate SafeRun(states: seq<System>, steps: seq<Step>) {
    && |states| == |steps| + 1
    && (exists parts, maxAttempts :: states[0] == Initial(parts, maxAttempts))
    && forall i | 0 <= i < |steps| :: Enabled(states[i], steps[i]) && !Risky(states[i], steps[i])
                                     && states[i + 1] == Next(states[i], steps[i])
  }

  /** Without risky steps no part is ever received twice and the record is always right. */
  lemma {:induction false} NoRiskNoHarm(states: seq<System>, steps: seq<Step>, i: nat)
    requires SafeRun(states, steps) && i < |states|
    ensures !Harmed(states[i]) && (Consistent(states[i]) || Settled(states[i]))
    decreases i
  {
    if i > 0 {
      var s, step := states[i - 1], steps[i - 1];
      NoRiskNoHarm(states, steps, i - 1);
      assert states[i - 1 + 1] == Next(s, step);
      SafeStep(s, step);
    }
  }

  lemma SafeStep(s: System, step: Step)
    requires (Consistent(s) || Settled(s)) && Enabled(s, step) && !Risky(s, step)
    ensures !Harmed(Next(s, step)) && (Consistent(Next(s, step)) || Settled(Next(s, step)))
  {
    if Settled(s) {
      if step.Crash? {
        SettledWrite(s, step.worker);
      }
      SettledStep(s, step);
    } else if Disciplined(s, step) {
      ConsistentIffDisciplined(s, step);
    } else {
      RecordedIsSettled(s);
      SettledStep(s, step);
    }
  }

  lemma RecordedIsSettled(s: System)
    requires Consistent(s) && s.row.partsSent == |s.row.parts|
    ensures Settled(s)
  {
    assert Ids(s.log)[|s.log|..] == [];
  }

  /** A takeover from a live worker harms exactly while parts remain unrecorded: then both send the next one. */
  lemma TakeoverHarmsIff(s: System, step: Step)
    requires Consistent(s) && Enabled(s, step) && (step.Recover? || step.Retry?) && s.workers != []
    ensures CanHarm(Next(s, step)) <==> s.row.partsSent < |s.row.parts|
  {
    var u := Next(s, step);
    if s.row.partsSent < |s.row.parts| {
      if s.workers[0].delivered == [] {
        BothDeliver(u);
      } else {
        SecondDelivers(u);
      }
    } else {
      RecordedIsSettled(s);
      SettledStep(s, step);
      forall steps, v | Leads(u, steps, v) ensures !Harmed(v) {
        SettledForever(u, steps, v);
      }
    }
  }

  /** The row waits to be claimed while its worker still sends. */
  ghost predicate TakenOver(s: System) {
    && InOrder(s.row.parts, s.log) && |s.workers| == 1 && s.row.partsSent < |s.row.parts|
    && (s.row.status == Pending || s.row.status == Failed)
    && s.workers[0].start == s.row.partsSent && |s.log| == s.row.partsSent + |s.workers[0].delivered|
  }

  function DueAt(s: System): int {
    if s.row.nextAttemptAt.Some? then s.row.nextAttemptAt.value else 0
  }

  lemma SecondDelivers(s: System)
    requires TakenOver(s) && s.workers[0].delivered != []
    ensures CanHarm(s)
  {
    var claim := Claim(DueAt(s));
    var s1 := Next(s, claim);
    assert s1.workers[1] == Worker(s.row.partsSent, s1.row.attempts, []);
    var s2 := Next(s1, Deliver(1, ""));
    LeadsTwo(s, claim, Deliver(1, ""));
    var k, n := s.row.partsSent, |s.log|;
    assert s2.log[k].index == k == s2.log[n].index;
    assert Twice(s2.log);
  }

  lemma BothDeliver(s: System)
    requires TakenOver(s) && s.workers[0].delivered == []
    ensures CanHarm(s)
  {
    var claim := Claim(DueAt(s));
    var s1 := Next(s, claim);
    assert s1.workers == [s.workers[0], Worker(s.row.partsSent, s1.row.attempts, [])];
    var s2 := Next(s1, Deliver(0, ""));
    assert s2.workers[1] == s1.workers[1];
    var s3 := Next(s2, Deliver(1, ""));
    LeadsThree(s, claim, Deliver(0, ""), Deliver(1, ""));
    var n := |s.log|;
    assert s3.log[n].index == s.row.partsSent == s3.log[n + 1].index;
    assert Twice(s3.log);
  }

  lemma LeadsTwo(s: System, a: Step, b: Step)
    requires Enabled(s, a) && Disciplined(s, a) && Enabled(Next(s, a), b) && Disciplined(Next(s, a), b)
    ensures Leads(s, [a, b], Next(Next(s, a), b))
  {
    hide Next, Enabled, Disciplined;
    var u := Next(Next(s, a), b);
    LeadsFirst(Next(s, a), b, [], u);
    LeadsFirst(s, a, [b], u);
    assert [b] + [] == [b] && [a] + [b] == [a, b];
  }

  lemma LeadsFirst(s: System, a: Step, steps: seq<Step>, u: System)
    requires Enabled(s, a) && Disciplined(s, a) && Leads(Next(s, a), steps, u)
    ensures Leads(s, [a] + steps, u)
  {
    assert ([a] + steps)[1..] == steps;
  }

  /** An unexpected exception after one part was accepted counts nothing: the next attempt delivers the part again. */
  lemma UncountedFailureDuplicates(part: string, a: string, b: string)
    ensures var s0 := Initial([part], 5);
            var s1 := Next(s0, Claim(0));
            var s2 := Next(s1, Deliver(0, a));
            var failure := WriteFailure(0, [], true, 30, 0, "channel delivery failed");
            var s3 := Next(s2, failure);
            && !Disciplined(s2, failure)
            && Enabled(s3, Claim(3600)) && Enabled(Next(s3, Claim(3600)), Deliver(0, b))
            && Next(Next(s3, Claim(3600)), Deliver(0, b)).log == [Message(0, part, a), Message(0, part, b)]
  {
    var s0 := Initial([part], 5);
    var s1 := Next(s0, Claim(0));
    var s2 := Next(s1, Deliver(0, a));
    var s3 := Next(s2, WriteFailure(0, [], true, 30, 0, "channel delivery failed"));
    assert Pow2(0) == 1;
    assert s3.workers == [];
  }

  /** A lease taken over from a worker that is still sending duplicates as well. */
  lemma ExpiredLeaseDuplicates(part: string, a: string, b: string)
    ensures var s1 := Next(Initial([part], 5), Claim(0));
            var s2 := Next(s1, Deliver(0, a));
            && Enabled(s2, Recover(1, 1)) && !Disciplined(s2, Recover(1, 1))
            && var s3 := Next(s2, Recover(1, 1));
               && Enabled(s3, Claim(1)) && Enabled(Next(s3, Claim(1)), Deliver(1, b))
               && Next(Next(s3, Claim(1)), Deliver(1, b)).log == [Message(0, part, a), Message(0, part, b)]
  {
  }

  // ----- one whole attempt

  /** The worker delivers one part after the other, with these identifiers. */
  ghost predicate DeliversTo(s: System, ids: seq<string>, u: System)
    decreases |ids|
  {
    if ids == [] then u == s
    else Enabled(s, Deliver(0, ids[0])) && DeliversTo(Next(s, Deliver(0, ids[0])), ids[1..], u)
  }

  lemma DeliverNext(s: System, id: string)
    requires |s.workers| == 1 && s.workers[0].start + |s.workers[0].delivered| < |s.row.parts|
    ensures Enabled(s, Deliver(0, id))
    ensures var u := Next(s, Deliver(0, id));
            u.row == s.row && u.workers == [s.workers[0].(delivered := s.workers[0].delivered + [id])]
  {
  }

  lemma {:induction false} Deliveries(s: System, ids: seq<string>) returns (u: System)
    requires Consistent(s) && |s.workers| == 1 && s.workers[0].start + |s.workers[0].delivered| + |ids| <= |s.row.parts|
    ensures DeliversTo(s, ids, u) && Consistent(u) && u.row == s.row
    ensures u.workers == [s.workers[0].(delivered := s.workers[0].delivered + ids)]
    decreases |ids|
  {
    hide Consistent, Next, Enabled;
    var d := s.workers[0].delivered;
    if ids == [] {
      u := s;
      assert d + ids == d;
    } else {
      DeliverNext(s, ids[0]);
      DeliverKeeps(s, 0, ids[0]);
      u := Deliveries(Next(s, Deliver(0, ids[0])), ids[1..]);
      assert d + [ids[0]] + ids[1..] == d + ids;
    }
  }

  /** The state after a claim and the deliveries `ids`. */
  ghost predicate Underway(s: System, now: int, ids: seq<string>, t: System) {
    && Enabled(s, Claim(now)) && DeliversTo(Next(s, Claim(now)), ids, t) && Consistent(t)
    && t.row == Claimed(s.row, now) && t.workers == [Worker(s.row.partsSent, t.row.attempts, ids)]
  }

  lemma AttemptUnderway(s: System, now: int, ids: seq<string>) returns (t: System)
    requires Consistent(s) && Claimable(s.row, now) && s.row.partsSent + |ids| <= |s.row.parts|
    ensures Underway(s, now, ids, t)
  {
    assert s.workers == [];
    ConsistentIffDisciplined(s, Claim(now));
    t := Deliveries(Next(s, Claim(now)), ids);
    assert [] + ids == ids;
  }

  /** What processing does to the row in one attempt - claim, send, write back success or an exactly counted failure -
      is a run of the protocol that ends consistent and without a worker. */
  lemma AttemptIsRun(s: System, now: int, later: int, ids: seq<string>, retryable: bool, base: int, error: string)
    returns (u: System)
    requires Consistent(s) && Claimable(s.row, now) && s.row.partsSent + |ids| <= |s.row.parts|
    ensures Enabled(s, Claim(now)) && DeliversTo(Next(s, Claim(now)), ids, u)
    ensures var c := Claimed(s.row, now);
            var failure := WriteFailure(0, ids, retryable, base, later, error);
            && Enabled(u, failure) && Disciplined(u, failure) && Consistent(Next(u, failure))
            && Next(u, failure).workers == []
            && Next(u, failure).row == Failure(c, ids, c.attempts, retryable, base, later, error)
    ensures s.row.partsSent + |ids| == |s.row.parts| ==>
              var success := WriteSuccess(0, later);
              && Enabled(u, success) && Consistent(Next(u, success)) && Next(u, success).workers == []
              && Next(u, success).row == Completed(Claimed(s.row, now), ids, later)
  {
    u := AttemptUnderway(s, now, ids);
    ConsistentIffDisciplined(u, WriteFailure(0, ids, retryable, base, later, error));
    if s.row.partsSent + |ids| == |s.row.parts| {
      ConsistentIffDisciplined(u, WriteSuccess(0, later));
    }
  }

  /** The step with which an attempt writes its report back. */
  function WriteBackOf(report: Report, base: int, later: int, error: string): Step {
    match report
    case AllSent(_) => WriteSuccess(0, later)
    case Counted(ids, retryable) => WriteFailure(0, ids, retryable, base, later, error)
    case Uncounted => WriteFailure(0, [], true, base, later, "channel delivery failed")
  }

  lemma WrittenBack(s: System, now: int, ids: seq<string>, t: System, report: Report, base: int, later: int,
                    error: string)
    requires Underway(s, now, ids, t) && (!report.Uncounted? ==> report.ids == ids)
    requires report.AllSent? ==> s.row.partsSent + |ids| == |s.row.parts|
    ensures var step := WriteBackOf(report, base, later, error);
            && Enabled(t, step) && Next(t, step).workers == []
            && Next(t, step).row == Reported(Claimed(s.row, now), report, base, later, error)
            && (Consistent(Next(t, step)) <==> !(report.Uncounted? && ids != []))
  {
    hide Consistent, DeliversTo;
    ConsistentIffDisciplined(t, WriteBackOf(report, base, later, error));
  }

  /** Processing a row is a run of the protocol: the claim, the delivery of exactly the parts that the channel accepts,
      and the write-back of the report. It ends consistent if and only if the report does not hide a delivery. */
  method ProcessInProtocol(delivery: DeliveryRow, ghost s: System, now: int, later: int, base: int, token: Reply,
                           reply: nat -> Reply, error: string)
    returns (report: Option<Report>, ghost t: System, ghost u: System)
    requires delivery.State() == s.row && Consistent(s)
    modifies delivery
    ensures report.None? <==> !Claimable(s.row, now)
    ensures report.None? ==> t == u == s && delivery.State() == s.row
    ensures report.Some? ==>
              var ids := Sent(token, reply, |s.row.parts| - s.row.partsSent);
              var step := WriteBackOf(report.value, base, later, error);
              && Enabled(s, Claim(now)) && DeliversTo(Next(s, Claim(now)), ids, t)
              && Enabled(t, step) && u == Next(t, step) && u.row == delivery.State() && u.workers == []
              && (Consistent(u) <==> !(report.value.Uncounted? && ids != []))
  {
    report := delivery.Process(now, later, base, token, reply, error);
    t, u := s, s;
    if report.Some? {
      ghost var ids := Sent(token, reply, |s.row.parts| - s.row.partsSent);
      t := AttemptUnderway(s, now, ids);
      hide Consistent, DeliversTo, Sent, Next;
      WrittenBack(s, now, ids, t, report.value, base, later, error);
      u := Next(t, WriteBackOf(report.value, base, later, error));
    }
  }

  // ----- attempts

  predicate IsTakeover(step: Step) {
    step.Recover? || step.Retry?
  }

  function Claims(steps: seq<Step>): nat {
    if steps == [] then 0 else Claims(steps[..|steps| - 1]) + if steps[|steps| - 1].Claim? then 1 else 0
  }

  /** Every run of enabled steps without lease recovery and manual retry; reports may be wrong. */
  ghost predicate PlainRun(states: seq<System>, steps: seq<Step>) {
    && |states| == |steps| + 1
    && (exists parts, maxAttempts :: states[0] == Initial(parts, maxAttempts))
    && forall i | 0 <= i < |steps| :: Enabled(states[i], steps[i]) && !IsTakeover(steps[i])
                                     && states[i + 1] == Next(states[i], steps[i])
  }

  ghost predicate AttemptsCounted(s: System, claims: nat) {
    && s.row.attempts == claims && |s.workers| <= 1
    && (s.workers != [] ==> s.row.status == Running && s.workers[0].attempt == claims)
    && (s.row.status == Pending ==> claims == 0)
    && (s.row.status == Failed ==> claims < s.row.maxAttempts)
    && (claims <= 1 || claims <= s.row.maxAttempts)
  }

  /** Without lease recovery and manual retry a row is claimed at most `max_attempts` times, and once if that is less
      than one. */
  lemma {:induction false} ClaimsBounded(states: seq<System>, steps: seq<Step>)
    requires PlainRun(states, steps)
    ensures AttemptsCounted(states[|steps|], Claims(steps))
    ensures Claims(steps) <= 1 || Claims(steps) <= states[0].row.maxAttempts
    ensures states[|steps|].row.maxAttempts == states[0].row.maxAttempts
    decreases |steps|
  {
    if steps == [] {
      assert states[0].row.attempts == 0;
    } else {
      var n := |steps| - 1;
      ClaimsBounded(states[..n + 1], steps[..n]);
      assert states[n + 1] == Next(states[n], steps[n]);
      AttemptStep(states[n], steps[n], Claims(steps[..n]));
      hide Next, Enabled, AttemptsCounted;
    }
  }

  lemma AttemptStep(s: System, step: Step, claims: nat)
    requires AttemptsCounted(s, claims) && Enabled(s, step) && !IsTakeover(step)
    ensures AttemptsCounted(Next(s, step), claims + if step.Claim? then 1 else 0)
    ensures Next(s, step).row.maxAttempts == s.row.maxAttempts
  {
  }

  /** A worker goes only by its own write-back or death, and no other one with it. */
  lemma OnlyOneWorkerLeaves(s: System, step: Step)
    requires Enabled(s, step)
    ensures var now := multiset(Next(s, step).workers);
            match step
            case Claim(_) => now == multiset(s.workers) + multiset{Worker(s.row.partsSent, s.row.attempts + 1, [])}
            case Deliver(w, id) =>
              now == multiset(s.workers) - multiset{s.workers[w]}
                     + multiset{s.workers[w].(delivered := s.workers[w].delivered + [id])}
            case WriteSuccess(w, _) => now == multiset(s.workers) - multiset{s.workers[w]}
            case WriteFailure(w, _, _, _, _, _) => now == multiset(s.workers) - multiset{s.workers[w]}
            case Recover(_, _) => now == multiset(s.workers)
            case Retry => now == multiset(s.workers)
            case Crash(w) => now == multiset(s.workers) - multiset{s.workers[w]}
  {
    if step.Deliver? || step.WriteSuccess? || step.WriteFailure? || step.Crash? {
      var ws, w := s.workers, step.worker;
      assert ws == ws[..w] + [ws[w]] + ws[w + 1..];
    }
  }

  // ----- when a row can be claimed again

  /** After a failed attempt the row is due again exactly if the failure can pass and attempts are left, after the
      delay; a success and any other failure end it. */
  lemma DueAfterWriteBack(s: System, w: nat, reported: seq<string>, retryable: bool, base: int, now: int, error: string,
                          t: int)
    requires Enabled(s, WriteFailure(w, reported, retryable, base, now, error))
    ensures Enabled(Next(s, WriteFailure(w, reported, retryable, base, now, error)), Claim(t))
            <==> retryable && s.workers[w].attempt < s.row.maxAttempts && t >= now + Delay(base, s.workers[w].attempt)
    ensures Enabled(s, WriteSuccess(w, now)) ==> !Enabled(Next(s, WriteSuccess(w, now)), Claim(t))
  {
  }

  /** A claimed row is left alone until its lease has expired; then it is due at once, and so is a row retried by
      hand. */
  lemma DueAfterTakeover(s: System, now: int, staleBefore: int, later: int, t: int)
    ensures Enabled(s, Claim(now)) ==>
              var u := Next(s, Claim(now));
              && !Enabled(u, Claim(t)) && (Enabled(u, Recover(staleBefore, later)) <==> now < staleBefore)
    ensures Enabled(s, Recover(staleBefore, later)) ==>
              (Enabled(Next(s, Recover(staleBefore, later)), Claim(t)) <==> later <= t)
    ensures Enabled(s, Retry) ==> Enabled(Next(s, Retry), Claim(t)) && Next(s, Retry).row.attempts == 0
    ensures Enabled(s, Recover(staleBefore, later)) ==>
              Next(s, Recover(staleBefore, later)).row.attempts == s.row.attempts
  {
  }

  /** Enabled steps other than a manual retry lead from `s` to `u`. */
  ghost predicate Unattended(s: System, steps: seq<Step>, u: System)
    decreases |steps|
  {
    if steps == [] then u == s
    else !steps[0].Retry? && Enabled(s, steps[0]) && Unattended(Next(s, steps[0]), steps[1..], u)
  }

  ghost predicate ClaimedAgain(s: System, now: int) {
    exists steps, u :: Unattended(s, steps, u) && Enabled(u, Claim(now))
  }

  /** Nobody can bring the row back: it is closed, and every worker still out is on its last attempt. */
  predicate Closed(s: System) {
    && (s.row.status == DeadLetter || s.row.status == Succeeded)
    && forall k | k in s.workers :: k.attempt >= s.row.maxAttempts
  }

  lemma {:induction false} StaysClosed(s: System, steps: seq<Step>, u: System)
    requires Closed(s) && Unattended(s, steps, u)
    ensures Closed(u)
    decreases |steps|
  {
    if steps != [] {
      ClosedStep(s, steps[0]);
      StaysClosed(Next(s, steps[0]), steps[1..], u);
    }
  }

  lemma ClosedStep(s: System, step: Step)
    requires Closed(s) && Enabled(s, step) && !step.Retry?
    ensures Closed(Next(s, step))
  {
  }

  /** A dead letter can be claimed again without a manual retry if and only if a worker that lost its lease is still
      out and may fail with attempts left. */
  lemma DeadLetterReturnsIff(s: System)
    requires s.row.status == DeadLetter
    ensures (exists now :: ClaimedAgain(s, now)) <==> exists k :: k in s.workers && k.attempt < s.row.maxAttempts
  {
    if k :| k in s.workers && k.attempt < s.row.maxAttempts {
      var w: nat :| w < |s.workers| && s.workers[w] == k;
      var step := WriteFailure(w, [], true, 0, 0, "");
      var u := Next(s, step);
      DueAfterWriteBack(s, w, [], true, 0, 0, "", Delay(0, k.attempt));
      assert Unattended(u, [], u);
      assert [step][1..] == [] && Unattended(s, [step], u);
      assert ClaimedAgain(s, Delay(0, k.attempt));
    }
    if now :| ClaimedAgain(s, now) {
      var steps, u :| Unattended(s, steps, u) && Enabled(u, Claim(now));
      if forall k | k in s.workers :: k.attempt >= s.row.maxAttempts {
        StaysClosed(s, steps, u);
      }
    }
  }

  /** In a consistent state a failure that cannot pass is final: no run without a manual retry claims the row again. */
  lemma PermanentFailureIsFinal(s: System, reported: seq<string>, base: int, now: int, error: string,
                                steps: seq<Step>, u: System, t: int)
    requires Consistent(s) && Enabled(s, WriteFailure(0, reported, false, base, now, error))
    requires Unattended(Next(s, WriteFailure(0, reported, false, base, now, error)), steps, u)
    ensures !Enabled(u, Claim(t)) && u.row == Next(s, WriteFailure(0, reported, false, base, now, error)).row
  {
    var v := Next(s, WriteFailure(0, reported, false, base, now, error));
    assert v.workers == [] && v.row.status == DeadLetter;
    NothingLeftToDo(v, steps, u);
  }

  lemma NothingLeftToDo(s: System, steps: seq<Step>, u: System)
    requires s.workers == [] && s.row.status == DeadLetter && Unattended(s, steps, u)
    ensures steps == [] && u == s
  {
  }

  /** A manual retry of a dead letter resumes after the recorded parts; it does not send them again. */
  lemma RetryResumes(s: System, now: int, id: string)
    requires Consistent(s) && s.workers == [] && s.row.status == DeadLetter && s.row.partsSent < |s.row.parts|
    ensures Enabled(s, Retry) && Enabled(Next(s, Retry), Claim(now))
            && Enabled(Next(Next(s, Retry), Claim(now)), Deliver(0, id))
    ensures Next(Next(Next(s, Retry), Claim(now)), Deliver(0, id)).log
            == s.log + [Message(s.row.partsSent, s.row.parts[s.row.partsSent], id)]
  {
  }
}
