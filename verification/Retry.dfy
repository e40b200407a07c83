/**
 Retried queue jobs around one idempotency key. Each attempt is a call to the orchestrator followed by putting its
 replies on the outbound queue; attempts may overlap, lose their caller, or die between any two steps.
 */
module Retry {
  import opened Wrappers

  const TTL_SECONDS := 3600

  /** The row of the key, with the replies of the result it holds. */
  datatype Row = Row(replies: seq<string>, expires: nat)

  datatype Phase =
    | Processing
    | Storing(result: seq<string>)
    | Sending(replies: seq<string>, next: nat, stored: bool)
    | Skipped(cached: seq<string>)
    | Over

  /** One reply put on the outbound queue: by which attempt, at which position, and whether out of a stored result. */
  datatype Sent = Sent(attempt: nat, index: nat, text: string, stored: bool)

  /**
   `deaf` are the attempts whose caller has gone. `writes` and `sent` record what was inserted and what was queued.
   */
  datatype State = State(now: nat, row: Option<Row>, attempts: map<nat, Phase>, deaf: set<nat>,
                         writes: seq<Row>, sent: seq<Sent>)

  datatype Step =
    | Tick(to: nat)
    | Begin(a: nat)
    | Compute(a: nat, result: seq<string>)
    | Fail(a: nat, replies: seq<string>)
    | Store(a: nat)
    | Send(a: nat, accepted: bool)
    | HangUp(a: nat)
    | Die(a: nat)

  const INITIAL := State(0, None, map[], {}, [], [])

  function Lookup(row: Option<Row>, now: nat): Option<seq<string>> {
    if row.Some? && now < row.value.expires then Some(row.value.replies) else None
  }

  /** Inserting where a row exists does nothing, even when that row has expired. */
  function Insert(row: Option<Row>, replies: seq<string>, now: nat): Option<Row> {
    if row.Some? then row else Some(Row(replies, now + TTL_SECONDS))
  }

  predicate Enabled(s: State, step: Step) {
    match step
    case Tick(to) => s.now <= to
    case Begin(a) => a !in s.attempts
    case Compute(a, result) => a in s.attempts && s.attempts[a].Processing?
    case Fail(a, replies) => a in s.attempts && (s.attempts[a].Processing? || s.attempts[a].Storing?)
    case Store(a) => a in s.attempts && s.attempts[a].Storing?
    case Send(a, accepted) => a in s.attempts && s.attempts[a].Sending? && s.attempts[a].next < |s.attempts[a].replies|
    case HangUp(a) => a in s.attempts
    case Die(a) => a in s.attempts
  }

  /** An answer reaches the queue only while its caller is there to take it. */
  function Answered(s: State, a: nat, replies: seq<string>, stored: bool): Phase {
    if a in s.deaf then Over else Sending(replies, 0, stored)
  }

  /** A step that is not enabled changes nothing. */
  function Apply(s: State, step: Step): State {
    if !Enabled(s, step) then s
    else
      match step
      case Tick(to) => s.(now := to)
      case Begin(a) =>
        (match Lookup(s.row, s.now)
         case Some(replies) => s.(attempts := s.attempts[a := Skipped(replies)])
         case None => s.(attempts := s.attempts[a := Processing]))
      case Compute(a, result) => s.(attempts := s.attempts[a := Storing(result)])
      case Fail(a, replies) => s.(attempts := s.attempts[a := Answered(s, a, replies, false)])
      case Store(a) =>
        var result := s.attempts[a].result;
        s.(row := Insert(s.row, result, s.now),
           writes := if s.row.Some? then s.writes else s.writes + [Insert(s.row, result, s.now).value],
           attempts := s.attempts[a := Answered(s, a, result, true)])
      case Send(a, accepted) =>
        var p := s.attempts[a];
        s.(attempts := s.attempts[a := p.(next := p.next + 1)],
           sent := if accepted then s.sent + [Sent(a, p.next, p.replies[p.next], p.stored)] else s.sent)
      case HangUp(a) =>
        s.(deaf := s.deaf + {a}, attempts := if s.attempts[a].Sending? then s.attempts[a := Over] else s.attempts)
      case Die(a) => s.(attempts := s.attempts[a := Over])
  }

  function Run(s: State, steps: seq<Step>): State
    decreases |steps|
  {
    if steps == [] then s else Run(Apply(s, steps[0]), steps[1..])
  }

  // --- every interleaving

  ghost predicate Inv(s: State) {
    && s.writes == (if s.row.Some? then [s.row.value] else [])
    && (forall a :: a in s.attempts && s.attempts[a].Skipped? ==>
          s.row.Some? && s.attempts[a].cached == s.row.value.replies)
    && (forall k :: 0 <= k < |s.sent| ==>
          && s.sent[k].attempt in s.attempts
          && !s.attempts[s.sent[k].attempt].Skipped? && !s.attempts[s.sent[k].attempt].Processing?)
  }

  lemma InvApply(s: State, step: Step)
    requires Inv(s)
    ensures Inv(Apply(s, step))
    ensures s.row.Some? ==> Apply(s, step).row == s.row
    ensures s.now <= Apply(s, step).now
  {
  }

  lemma {:induction false} InvRun(s: State, steps: seq<Step>)
    requires Inv(s)
    ensures Inv(Run(s, steps))
    ensures s.row.Some? ==> Run(s, steps).row == s.row
    ensures s.now <= Run(s, steps).now
    decreases |steps|
  {
    if steps != [] {
      InvApply(s, steps[0]);
      hide Inv, Apply;
      InvRun(Apply(s, steps[0]), steps[1..]);
    }
  }

  /** However attempts overlap and die, the row is written at most once and every cached answer is that row's. */
  lemma RowWrittenOnce(steps: seq<Step>)
    ensures var s := Run(INITIAL, steps);
            && |s.writes| <= 1
            && forall a :: a in s.attempts && s.attempts[a].Skipped? ==>
                 |s.writes| == 1 && s.attempts[a].cached == s.writes[0].replies
  {
    InvRun(INITIAL, steps);
  }

  /** The attempt has not begun, or was answered from the row: either way it has queued nothing and never will. */
  ghost predicate Quiet(s: State, a: nat) {
    && s.row.Some?
    && (a in s.attempts ==> s.attempts[a].Skipped? || s.attempts[a].Over?)
    && (forall k :: 0 <= k < |s.sent| ==> s.sent[k].attempt != a)
  }

  lemma QuietApply(s: State, step: Step, a: nat)
    requires Inv(s) && Quiet(s, a) && s.now < s.row.value.expires
    ensures Quiet(Apply(s, step), a)
  {
  }

  lemma {:induction false} QuietRun(s: State, steps: seq<Step>, a: nat)
    requires Inv(s) && Quiet(s, a) && Run(s, steps).now < s.row.value.expires
    ensures Quiet(Run(s, steps), a)
    decreases |steps|
  {
    if steps != [] {
      var next := Apply(s, steps[0]);
      InvApply(s, steps[0]);
      InvRun(next, steps[1..]);
      QuietApply(s, steps[0], a);
      assert next.row == s.row by { assert Quiet(s, a); }
      hide Inv, Apply, Quiet;
      QuietRun(next, steps[1..], a);
    }
  }

  /** Within the TTL, an attempt that begins after the row was stored queues nothing, whatever the other attempts do. */
  lemma NothingAfterTheStore(before: seq<Step>, after: seq<Step>, a: nat)
    requires var s := Run(INITIAL, before);
             s.row.Some? && a !in s.attempts && Run(s, after).now < s.row.value.expires
    ensures var s := Run(Run(INITIAL, before), after);
            forall k :: 0 <= k < |s.sent| ==> s.sent[k].attempt != a
  {
    InvRun(INITIAL, before);
    QuietRun(Run(INITIAL, before), after, a);
  }

  /** The expired row is never replaced, so from then on no attempt is answered from it: each one is processed anew. */
  lemma ExpiredForGood(s: State, steps: seq<Step>, a: nat)
    requires Inv(s) && s.row.Some? && s.row.value.expires <= s.now
    requires a !in Run(s, steps).attempts
    ensures Apply(Run(s, steps), Begin(a)).attempts[a] == Processing
    ensures Run(s, steps).row == s.row
  {
    hide Run;
    InvRun(s, steps);
  }

  // --- attempts one after another

  predicate Idle(p: Phase) { p.Skipped? || p.Over? || (p.Sending? && p.next == |p.replies|) }

  /** An attempt begins only when nothing of the earlier ones is still going on. */
  predicate Serial(s: State, step: Step) {
    step.Begin? ==> forall a :: a in s.attempts ==> Idle(s.attempts[a])
  }

  predicate SerialRun(s: State, steps: seq<Step>)
    decreases |steps|
  {
    steps == [] || (Serial(s, steps[0]) && SerialRun(Apply(s, steps[0]), steps[1..]))
  }

  /**
   `w` is the attempt that wrote the row. All others are idle, and what is queued out of a stored result is w's own, in
   order and without repetition.
   */
  ghost predicate Once(s: State, w: nat) {
    && (s.row.None? ==>
          && (forall a, b :: a in s.attempts && b in s.attempts && !Idle(s.attempts[a]) && !Idle(s.attempts[b]) ==>
                a == b)
          && (forall a :: a in s.attempts && s.attempts[a].Sending? ==> !s.attempts[a].stored)
          && (forall k :: 0 <= k < |s.sent| ==> !s.sent[k].stored))
    && (s.row.Some? ==>
          && w in s.attempts
          && (s.attempts[w].Over?
              || (s.attempts[w].Sending? && s.attempts[w].stored && s.attempts[w].replies == s.row.value.replies))
          && (forall a :: a in s.attempts && a != w ==> Idle(s.attempts[a]))
          && OwnReplies(s.sent, s.row.value.replies, w,
                        if s.attempts[w].Over? then |s.row.value.replies| else s.attempts[w].next))
  }

  /** The entries out of a stored result: one attempt's, with texts from the row, at rising positions below `limit`. */
  ghost predicate OwnReplies(sent: seq<Sent>, replies: seq<string>, w: nat, limit: int) {
    && (forall k :: 0 <= k < |sent| && sent[k].stored ==>
          sent[k].attempt == w && sent[k].index < limit && sent[k].index < |replies|
          && sent[k].text == replies[sent[k].index])
    && (forall j, k :: 0 <= j < k < |sent| && sent[j].stored && sent[k].stored ==> sent[j].index < sent[k].index)
  }

  function Writer(s: State, step: Step, w: nat): nat {
    if step.Store? && Enabled(s, step) && s.row.None? then step.a else w
  }

  lemma OnceSend(s: State, step: Step, w: nat)
    requires Once(s, w) && step.Send? && Enabled(s, step)
    ensures Once(Apply(s, step), w)
  {
  }

  lemma OnceOther(s: State, step: Step, w: nat)
    requires Inv(s) && Once(s, w) && Serial(s, step) && (s.row.Some? ==> s.now < s.row.value.expires)
    requires !step.Send? && !step.Store? && Enabled(s, step)
    ensures Once(Apply(s, step), w)
  {
  }

  lemma OnceStore(s: State, step: Step, w: nat)
    requires Inv(s) && Once(s, w) && step.Store? && Enabled(s, step)
    ensures Once(Apply(s, step), Writer(s, step, w))
  {
  }

  lemma OnceApply(s: State, step: Step, w: nat)
    requires Inv(s) && Once(s, w) && Serial(s, step) && (s.row.Some? ==> s.now < s.row.value.expires)
    ensures Once(Apply(s, step), Writer(s, step, w))
  {
    if Enabled(s, step) {
      hide Inv, Once, Serial, Idle;
      if step.Send? {
        OnceSend(s, step, w);
      } else if step.Store? {
        OnceStore(s, step, w);
      } else {
        OnceOther(s, step, w);
      }
    }
  }

  lemma {:induction false} OnceRun(s: State, steps: seq<Step>, w: nat) returns (writer: nat)
    requires Inv(s) && Once(s, w) && SerialRun(s, steps)
    requires Run(s, steps).row.Some? ==> Run(s, steps).now < Run(s, steps).row.value.expires
    ensures Once(Run(s, steps), writer)
    decreases |steps|
  {
    if steps == [] {
      return w;
    }
    var next := Apply(s, steps[0]);
    InvRun(s, steps);
    InvApply(s, steps[0]);
    OnceApply(s, steps[0], w);
    hide Inv, Apply, Once, Writer;
    writer := OnceRun(next, steps[1..], Writer(s, steps[0], w));
  }

  /**
   For attempts one after another within the TTL, crashes included: all that is ever queued out of a stored result comes
   from one attempt and carries the row's own texts, no position twice.
   */
  lemma RepliesQueuedOnce(steps: seq<Step>)
    requires SerialRun(INITIAL, steps)
    requires var s := Run(INITIAL, steps); s.row.Some? ==> s.now < s.row.value.expires
    ensures var s := Run(INITIAL, steps);
            && (forall k :: 0 <= k < |s.sent| && s.sent[k].stored ==>
                  s.row.Some? && s.sent[k].index < |s.row.value.replies|
                  && s.sent[k].text == s.row.value.replies[s.sent[k].index])
            && (forall j, k :: 0 <= j < k < |s.sent| && s.sent[j].stored && s.sent[k].stored ==>
                  s.sent[j].attempt == s.sent[k].attempt && s.sent[j].index < s.sent[k].index)
  {
    var w := OnceRun(INITIAL, steps, 0);
    hide Run, SerialRun;
  }

  /**
   Once the row is stored and every attempt so far has ended, nothing is queued any more within the TTL: replies that
   the writer had not queued when it died are lost, not retried.
   */
  lemma LostForGood(s: State, steps: seq<Step>)
    requires Inv(s) && s.row.Some? && forall a :: a in s.attempts ==> s.attempts[a].Over? || s.attempts[a].Skipped?
    requires Run(s, steps).now < s.row.value.expires
    ensures Run(s, steps).sent == s.sent
    decreases |steps|
  {
    if steps != [] {
      var next := Apply(s, steps[0]);
      InvApply(s, steps[0]);
      InvRun(next, steps[1..]);
      EndedStep(s, steps[0]);
      hide Inv, Apply;
      LostForGood(next, steps[1..]);
    }
  }

  lemma EndedStep(s: State, step: Step)
    requires s.row.Some? && s.now < s.row.value.expires
    requires forall a :: a in s.attempts ==> s.attempts[a].Over? || s.attempts[a].Skipped?
    ensures var next := Apply(s, step);
            next.sent == s.sent && next.row == s.row
            && forall a :: a in next.attempts ==> next.attempts[a].Over? || next.attempts[a].Skipped?
  {
  }

  // --- where it does not hold

  /**
   The attempt got past the check before the row was there, and its caller still waits, or it is queueing a result.
   */
  predicate InFlight(s: State, a: nat) {
    a in s.attempts
    && match s.attempts[a]
       case Processing => a !in s.deaf
       case Storing(result) => a !in s.deaf && result != []
       case Sending(replies, next, stored) => stored && next < |replies|
       case _ => false
  }

  /** A reply out of a stored result that the attempt queued after the first n. */
  ghost predicate Queues(s: State, n: nat, a: nat) {
    exists k :: n <= k < |s.sent| && s.sent[k].attempt == a && s.sent[k].stored
  }

  /**
   With a valid row there, an attempt can still queue a reply out of a stored result within the TTL if and only if it is
   in flight. So the row stops attempts that begin after it, and none of those that overlap with the one that wrote it.
   */
  lemma OverlapQueuesExactly(s: State, a: nat)
    requires Inv(s) && s.row.Some? && s.now < s.row.value.expires
    ensures InFlight(s, a) <==>
            exists steps :: Run(s, steps).now < s.row.value.expires && Queues(Run(s, steps), |s.sent|, a)
  {
    if InFlight(s, a) {
      var steps := Onward(s, a);
      assert Queues(Run(s, steps), |s.sent|, a);
    } else {
      forall steps | Run(s, steps).now < s.row.value.expires
        ensures !Queues(Run(s, steps), |s.sent|, a)
      {
        NotInFlight(s, steps, a, |s.sent|);
      }
    }
  }

  /** The steps of the attempt alone that queue its next reply. */
  lemma Onward(s: State, a: nat) returns (steps: seq<Step>)
    requires s.row.Some? && InFlight(s, a)
    ensures Run(s, steps).now == s.now && Queues(Run(s, steps), |s.sent|, a) && Run(s, steps).row == s.row
    ensures s.sent <= Run(s, steps).sent
  {
    if s.attempts[a].Processing? {
      var next := Apply(s, Compute(a, ["x"]));
      var later := OnwardStored(next, a);
      steps := [Compute(a, ["x"])] + later;
    } else {
      steps := OnwardStored(s, a);
    }
  }

  lemma OnwardStored(s: State, a: nat) returns (steps: seq<Step>)
    requires s.row.Some? && InFlight(s, a) && !s.attempts[a].Processing?
    ensures Run(s, steps).now == s.now && Queues(Run(s, steps), |s.sent|, a) && Run(s, steps).row == s.row
    ensures s.sent <= Run(s, steps).sent
  {
    var ready := if s.attempts[a].Storing? then Apply(s, Store(a)) else s;
    var p := ready.attempts[a];
    var last := Apply(ready, Send(a, true));
    assert last.sent == s.sent + [Sent(a, p.next, p.replies[p.next], true)];
    assert last.sent[|s.sent|] == Sent(a, p.next, p.replies[p.next], true);
    steps := if s.attempts[a].Storing? then [Store(a), Send(a, true)] else [Send(a, true)];
    RunTail(s, steps);
    RunTail(ready, [Send(a, true)]);
    RunTail(last, []);
    assert [Store(a), Send(a, true)][1..] == [Send(a, true)] && [Send(a, true)][1..] == [];
    assert Run(s, steps) == last;
  }

  lemma RunTail(s: State, steps: seq<Step>)
    ensures Run(s, steps) == if steps == [] then s else Run(Apply(s, steps[0]), steps[1..])
  {
  }

  lemma GroundedStep(s: State, step: Step, a: nat, n: nat)
    requires Inv(s) && s.row.Some? && s.now < s.row.value.expires
    requires !InFlight(s, a) && !Queues(s, n, a)
    ensures !InFlight(Apply(s, step), a) && !Queues(Apply(s, step), n, a)
  {
  }

  lemma {:induction false} NotInFlight(s: State, steps: seq<Step>, a: nat, n: nat)
    requires Inv(s) && s.row.Some? && Run(s, steps).now < s.row.value.expires
    requires !InFlight(s, a) && !Queues(s, n, a)
    ensures !Queues(Run(s, steps), n, a)
    decreases |steps|
  {
    if steps != [] {
      var next := Apply(s, steps[0]);
      InvApply(s, steps[0]);
      InvRun(next, steps[1..]);
      GroundedStep(s, steps[0], a, n);
      hide Inv, Apply, InFlight, Queues;
      NotInFlight(next, steps[1..], a, n);
    }
  }

  /**
   Any two overlapping attempts, as the queue's four workers and the direct fallback allow, can both queue replies.
   */
  lemma OverlapQueuesTwice(a: nat, b: nat, text: string)
    requires a != b
    ensures exists steps ::
              var s := Run(INITIAL, steps);
              s.row.Some? && s.now < s.row.value.expires && Queues(s, 0, a) && Queues(s, 0, b)
  {
    var first := [Begin(a), Begin(b), Compute(a, [text]), Store(a), Send(a, true)];
    var s := Apply(Apply(Apply(Apply(Apply(INITIAL, Begin(a)), Begin(b)), Compute(a, [text])), Store(a)),
                   Send(a, true));
    RunFive(INITIAL, first);
    assert s.sent[0] == Sent(a, 0, text, true) && Queues(s, 0, a);
    assert InFlight(s, b);
    InvRun(INITIAL, first);
    var later := Onward(s, b);
    RunConcat(INITIAL, first, later);
    var last := Run(INITIAL, first + later);
    assert last.sent[0] == Sent(a, 0, text, true);
  }

  lemma RunFive(s: State, five: seq<Step>)
    requires |five| == 5
    ensures Run(s, five) == Apply(Apply(Apply(Apply(Apply(s, five[0]), five[1]), five[2]), five[3]), five[4])
  {
    hide Apply, Run;
    assert five[1..][1..] == five[2..] && five[2..][1..] == five[3..] && five[3..][1..] == five[4..]
           && five[4..][1..] == [];
    var s1 := Apply(s, five[0]);
    var s2 := Apply(s1, five[1]);
    var s3 := Apply(s2, five[2]);
    var s4 := Apply(s3, five[3]);
    RunTail(s, five);
    RunTail(s1, five[1..]);
    RunTail(s2, five[2..]);
    RunTail(s3, five[3..]);
    RunTail(s4, five[4..]);
    RunTail(Apply(s4, five[4]), []);
  }

  lemma {:induction false} RunConcat(s: State, a: seq<Step>, b: seq<Step>)
    ensures Run(s, a + b) == Run(Run(s, a), b)
    decreases |a|
  {
    if a == [] {
      assert a + b == b;
    } else {
      assert (a + b)[1..] == a[1..] + b;
      hide Apply;
      RunConcat(Apply(s, a[0]), a[1..], b);
    }
  }

  // --- the code of one undisturbed attempt, as a run of the machine above

  /** What one attempt puts on the queue out of its first n replies; `taken` tells which were not already there. */
  function Queued(a: nat, replies: seq<string>, taken: seq<bool>, stored: bool, n: nat): seq<Sent>
    requires n <= |replies| <= |taken|
  {
    if n == 0 then []
    else
      Queued(a, replies, taken, stored, n - 1) + if taken[n - 1] then [Sent(a, n - 1, replies[n - 1], stored)] else []
  }

  lemma {:induction false} RunAppend(s: State, steps: seq<Step>, step: Step)
    ensures Run(s, steps + [step]) == Apply(Run(s, steps), step)
    ensures SerialRun(s, steps + [step]) <==> SerialRun(s, steps) && Serial(Run(s, steps), step)
    decreases |steps|
  {
    var all := steps + [step];
    if steps != [] {
      assert all[1..] == steps[1..] + [step];
      hide Apply, Serial;
      RunAppend(Apply(s, steps[0]), steps[1..], step);
    } else {
      assert all[1..] == [];
    }
  }

  /** The one attempt in progress, with the others idle and no caller gone. */
  ghost predicate Busy(s: State, a: nat, phase: Phase) {
    a in s.attempts && s.attempts[a] == phase && s.deaf == {}
    && forall b :: b in s.attempts ==> b <= a && (b != a ==> Idle(s.attempts[b]))
  }

  lemma BusySteps(s: State, a: nat, phase: Phase, step: Step)
    requires Busy(s, a, phase)
    ensures phase.Processing? && step.Compute? && step.a == a ==> Busy(Apply(s, step), a, Storing(step.result))
    ensures phase.Storing? && step == Store(a) ==> Busy(Apply(s, step), a, Sending(phase.result, 0, true))
    ensures phase.Processing? && step.Fail? && step.a == a ==> Busy(Apply(s, step), a, Sending(step.replies, 0, false))
  {
  }

  lemma BusySend(s: State, a: nat, phase: Phase, accepted: bool)
    requires Busy(s, a, phase) && phase.Sending? && phase.next < |phase.replies|
    ensures var next := Apply(s, Send(a, accepted));
            && Busy(next, a, phase.(next := phase.next + 1)) && next.row == s.row && next.now == s.now
            && next.sent == s.sent
                 + if accepted then [Sent(a, phase.next, phase.replies[phase.next], phase.stored)] else []
  {
  }

  class OrchestrateWorker {
    var now: nat
    var row: Option<Row>
    var sent: seq<Sent>
    var begun: nat
    ghost var steps: seq<Step>

    /** The fields are those of the state that the steps lead to, and no step began one attempt during another. */
    ghost predicate Follows(s: State)
      reads this
    {
      SerialRun(INITIAL, steps) && s == Run(INITIAL, steps) && s.now == now && s.row == row && s.sent == sent
    }

    ghost predicate Valid()
      reads this
    {
      var s := Run(INITIAL, steps);
      Follows(s) && s.deaf == {} && forall a :: a in s.attempts ==> a < begun && Idle(s.attempts[a])
    }

    constructor ()
      ensures Valid() && now == 0 && row == None && sent == []
    {
      now, row, sent, begun, steps := 0, None, [], 0, [];
    }

    method IdempotentGet() returns (replies: Option<seq<string>>)
      ensures replies == Lookup(row, now)
    {
      if row.Some? && now < row.value.expires {
        return Some(row.value.replies);
      }
      return None;
    }

    method IdempotentSet(replies: seq<string>)
      modifies this`row
      ensures row == Insert(old(row), replies, now)
      ensures old(row).None? ==> row == Some(Row(replies, now + 3600))
    {
      if row.None? {
        row := Some(Row(replies, now + TTL_SECONDS));
      }
    }

    /** The check at the start of an attempt. */
    method BeginAttempt() returns (cached: bool)
      requires Valid()
      modifies this`begun, this`steps
      ensures begun == old(begun) + 1 && cached == Lookup(row, now).Some?
      ensures cached ==> Valid()
      ensures !cached ==> Follows(Run(INITIAL, steps)) && Busy(Run(INITIAL, steps), old(begun), Processing)
    {
      var replies := IdempotentGet();
      RunAppend(INITIAL, steps, Begin(begun));
      steps := steps + [Begin(begun)];
      begun := begun + 1;
      return replies.Some?;
    }

    /** The orchestrator's answer: stored when processing came to a result, not stored when it failed. */
    method Answer(outcome: Option<seq<string>>, fallback: seq<string>) returns (replies: seq<string>)
      requires 0 < begun && Follows(Run(INITIAL, steps)) && Busy(Run(INITIAL, steps), begun - 1, Processing)
      modifies this`row, this`steps
      ensures replies == outcome.GetOr(fallback)
      ensures row == if outcome.Some? then Insert(old(row), replies, now) else old(row)
      ensures Follows(Run(INITIAL, steps)) && Busy(Run(INITIAL, steps), begun - 1, Sending(replies, 0, outcome.Some?))
    {
      ghost var a, s := begun - 1, Run(INITIAL, steps);
      replies := outcome.GetOr(fallback);
      if outcome.Some? {
        RunAppend(INITIAL, steps, Compute(a, replies));
        RunAppend(INITIAL, steps + [Compute(a, replies)], Store(a));
        BusySteps(s, a, Processing, Compute(a, replies));
        BusySteps(Apply(s, Compute(a, replies)), a, Storing(replies), Store(a));
        hide Run, Busy, SerialRun;
        IdempotentSet(replies);
        steps := steps + [Compute(a, replies)] + [Store(a)];
      } else {
        RunAppend(INITIAL, steps, Fail(a, replies));
        BusySteps(s, a, Processing, Fail(a, replies));
        hide Run, Busy, SerialRun;
        steps := steps + [Fail(a, replies)];
      }
    }

    /** Puts one reply on the queue, unless a job with its id is already there. */
    method SendReply(phase: Phase, taken: bool)
      requires 0 < begun && Follows(Run(INITIAL, steps)) && Busy(Run(INITIAL, steps), begun - 1, phase)
      requires phase.Sending? && phase.next < |phase.replies|
      modifies this`sent, this`steps
      ensures sent == old(sent)
                + if taken then [Sent(begun - 1, phase.next, phase.replies[phase.next], phase.stored)] else []
      ensures Follows(Run(INITIAL, steps)) && Busy(Run(INITIAL, steps), begun - 1, phase.(next := phase.next + 1))
    {
      RunAppend(INITIAL, steps, Send(begun - 1, taken));
      BusySend(Run(INITIAL, steps), begun - 1, phase, taken);
      hide Run, Busy, SerialRun, Apply;
      steps := steps + [Send(begun - 1, taken)];
      if taken {
        sent := sent + [Sent(begun - 1, phase.next, phase.replies[phase.next], phase.stored)];
      }
    }

    method SendReplies(replies: seq<string>, stored: bool, taken: seq<bool>)
      requires 0 < begun && |replies| <= |taken| && Follows(Run(INITIAL, steps))
      requires Busy(Run(INITIAL, steps), begun - 1, Sending(replies, 0, stored))
      modifies this`sent, this`steps
      ensures sent == old(sent) + Queued(begun - 1, replies, taken, stored, |replies|)
      ensures Follows(Run(INITIAL, steps))
      ensures Busy(Run(INITIAL, steps), begun - 1, Sending(replies, |replies|, stored))
    {
      hide Run, Busy, SerialRun, Apply;
      for i := 0 to |replies|
        invariant Follows(Run(INITIAL, steps)) && Busy(Run(INITIAL, steps), begun - 1, Sending(replies, i, stored))
        invariant sent == old(sent) + Queued(begun - 1, replies, taken, stored, i)
      {
        SendReply(Sending(replies, i, stored), taken[i]);
        assert old(sent) + Queued(begun - 1, replies, taken, stored, i + 1) == sent;
      }
    }

    /**
     One attempt, start to end: processing gives a result, or fails and answers with fallback replies. The work is
     skipped exactly when the row is still valid.
     */
    method ProcessOrchestrateJob(outcome: Option<seq<string>>, fallback: seq<string>, taken: seq<bool>)
      requires Valid() && |outcome.GetOr(fallback)| <= |taken|
      modifies this
      ensures Valid() && now == old(now) && begun == old(begun) + 1
      ensures Lookup(old(row), now).Some? ==> row == old(row) && sent == old(sent)
      ensures Lookup(old(row), now).None? ==>
                var replies := outcome.GetOr(fallback);
                && row == (if outcome.Some? then Insert(old(row), replies, now) else old(row))
                && sent == old(sent) + Queued(old(begun), replies, taken, outcome.Some?, |replies|)
    {
      hide Run, SerialRun, Busy, Queued;
      var cached := BeginAttempt();
      if !cached {
        var replies := Answer(outcome, fallback);
        SendReplies(replies, outcome.Some?, taken);
        BusyDone(Run(INITIAL, steps), old(begun), Sending(replies, |replies|, outcome.Some?));
      }
    }
  }

  lemma BusyDone(s: State, a: nat, phase: Phase)
    requires Busy(s, a, phase) && Idle(phase)
    ensures s.deaf == {} && forall b :: b in s.attempts ==> b < a + 1 && Idle(s.attempts[b])
  {
  }
}
