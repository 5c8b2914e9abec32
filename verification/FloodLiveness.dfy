/** When a sender of the flood leaves its loop, and when it can do nothing more. */
module FloodLiveness {
  import opened Arithmetic
  import opened Flood

  /** Work a sender has left before it; going round its loop is none. */
  function Work(s: Sender): int {
    8 * (s.n - s.sent) + 6 * s.queued + 4 * s.inFlight + 2 * |s.cq| + s.count
  }

  predicate SameButPhase(s: Sender, t: Sender) {
    t == s.(phase := t.phase)
  }

  lemma TurnWork(c: Config, s: Sender)
    requires s.phase != Done
    ensures var t := SenderTurn(c, s);
            Work(t) < Work(s) || (Work(t) == Work(s) && SameButPhase(s, t) && t.phase != s.phase)
  {
  }

  /** The sender has something to do in its current phase. */
  predicate ActsNow(c: Config, s: Sender) {
    match s.phase
    case Filling => FillGuard(c, s) || s.queued > 0
    case Reaping => s.cq != [] || s.count > 0 || s.completed >= s.n
    case Done => false
  }

  function OtherPhase(p: Phase): Phase {
    if p == Filling then Reaping else Filling
  }

  /** Without failures, and with nothing left to the kernel, an unfinished sender acts now or in its other phase. */
  lemma SomethingToDo(c: Config, s: Sender)
    requires SenderInv(c, s) && c.ring >= 1 && s.phase != Done && s.failed == 0 && s.inFlight == 0
    ensures ActsNow(c, s) || ActsNow(c, s.(phase := OtherPhase(s.phase)))
  {
  }

  lemma ActingWorks(c: Config, s: Sender)
    requires SenderInv(c, s) && c.entries >= c.ring && ActsNow(c, s)
    ensures Work(SenderTurn(c, s)) < Work(s) || SenderTurn(c, s).phase == Done
  {
  }

  // ---- Infinite runs ----

  datatype Event = Take(step: Step) | Pause

  datatype Behavior = Behavior(state: nat -> State, event: nat -> Event)

  ghost predicate Follows(c: Config, b: Behavior, k: nat) {
    match b.event(k)
    case Take(step) => Enabled(c, b.state(k), step) && b.state(k + 1) == Apply(c, b.state(k), step)
    case Pause => b.state(k + 1) == b.state(k)
  }

  ghost predicate IsBehavior(c: Config, counts: seq<nat>, b: Behavior) {
    b.state(0) == Start(c, counts) && forall k: nat :: Follows(c, b, k)
  }

  /** The sender of connection i at moment k. */
  ghost function At(b: Behavior, i: nat, k: nat): Sender {
    if i < |b.state(k).connections| then b.state(k).connections[i].sender else NewSender(0)
  }

  predicate IsTurn(e: Event, i: nat) { e == Take(SenderStep(i)) }

  predicate IsFinish(e: Event, i: nat) { e.Take? && e.step.SendDone? && e.step.i == i }

  predicate IsFailure(e: Event, i: nat) { IsFinish(e, i) && e.step.res < 0 }

  /** From k on, there is a moment when the thread is done or takes a turn, and one when no send is in flight or one finishes. */
  ghost predicate TurnServed(b: Behavior, i: nat, k: nat) {
    exists j: nat :: k <= j && (At(b, i, j).phase == Done || IsTurn(b.event(j), i))
  }

  ghost predicate FinishServed(b: Behavior, i: nat, k: nat) {
    exists j: nat :: k <= j && (At(b, i, j).inFlight == 0 || IsFinish(b.event(j), i))
  }

  /** Weak fairness towards thread i and towards the kernel's work for it. */
  ghost predicate Fair(b: Behavior, i: nat) {
    forall k: nat :: TurnServed(b, i, k) && FinishServed(b, i, k)
  }

  ghost predicate Leaves(b: Behavior, i: nat, k: nat) {
    At(b, i, k).phase == Done
  }

  ghost predicate NeverFails(b: Behavior, i: nat) {
    forall k: nat :: !IsFailure(b.event(k), i)
  }

  /** Failed sends, reported or still in the completion queue. */
  function Bad(s: Sender): nat { s.failed + Negatives(s.cq) }

  function Negatives(cq: seq<int>): nat {
    if cq == [] then 0 else (if cq[0] < 0 then 1 else 0) + Negatives(cq[1..])
  }

  lemma {:induction false} NegativesAppend(cq: seq<int>, res: int)
    ensures Negatives(cq + [res]) == Negatives(cq) + if res < 0 then 1 else 0
  {
    if cq != [] {
      assert (cq + [res])[1..] == cq[1..] + [res];
      NegativesAppend(cq[1..], res);
    }
  }

  /** What one event does to sender i. */
  ghost predicate Happens(c: Config, s: Sender, t: Sender, e: Event, i: nat) {
    if IsTurn(e, i) then s.phase != Done && t == SenderTurn(c, s)
    else if IsFinish(e, i) then s.inFlight > 0 && t == FinishSend(s, e.step.res)
    else t == s
  }

  lemma {:induction false} BehaviorInv(c: Config, counts: seq<nat>, b: Behavior, k: nat)
    requires IsBehavior(c, counts, b)
    ensures Inv(c, b.state(k), counts)
  {
    if k == 0 {
      StartInv(c, counts);
    } else {
      BehaviorInv(c, counts, b, k - 1);
      assert Follows(c, b, k - 1);
      if b.event(k - 1).Take? { StepKeepsInv(c, b.state(k - 1), counts, b.event(k - 1).step); }
    }
  }

  lemma Next(c: Config, counts: seq<nat>, b: Behavior, i: nat, k: nat)
    requires IsBehavior(c, counts, b) && i < |counts|
    ensures SenderInv(c, At(b, i, k)) && At(b, i, k).n == counts[i]
    ensures Happens(c, At(b, i, k), At(b, i, k + 1), b.event(k), i)
  {
    BehaviorInv(c, counts, b, k);
    assert Follows(c, b, k);
  }

  lemma HappensWork(c: Config, s: Sender, t: Sender, e: Event, i: nat)
    requires Happens(c, s, t, e, i)
    ensures Work(t) < Work(s) || (Work(t) == Work(s) && SameButPhase(s, t))
    ensures Work(t) < Work(s) || IsTurn(e, i) || t == s
    ensures IsFinish(e, i) ==> Work(t) < Work(s)
  {
    if IsTurn(e, i) { TurnWork(c, s); }
  }

  /** Failures are never forgotten, and nothing but a failing send adds one. */
  lemma HappensBad(c: Config, s: Sender, t: Sender, e: Event, i: nat)
    requires Happens(c, s, t, e, i)
    ensures Bad(t) == Bad(s) + if IsFailure(e, i) then 1 else 0
  {
    if IsFinish(e, i) { NegativesAppend(s.cq, e.step.res); }
  }

  lemma FirstMoment(c: Config, counts: seq<nat>, b: Behavior, i: nat)
    requires IsBehavior(c, counts, b) && i < |counts|
    ensures At(b, i, 0) == NewSender(counts[i])
  {
  }

  lemma BadNext(c: Config, counts: seq<nat>, b: Behavior, i: nat, k: nat)
    requires IsBehavior(c, counts, b) && i < |counts|
    ensures Bad(At(b, i, k + 1)) == Bad(At(b, i, k)) + if IsFailure(b.event(k), i) then 1 else 0
  {
    Next(c, counts, b, i, k);
    HappensBad(c, At(b, i, k), At(b, i, k + 1), b.event(k), i);
  }

  lemma {:induction false} BadGrows(c: Config, counts: seq<nat>, b: Behavior, i: nat, j: nat, k: nat)
    requires IsBehavior(c, counts, b) && i < |counts| && j <= k
    ensures Bad(At(b, i, j)) <= Bad(At(b, i, k))
    decreases k - j
  {
    if j < k {
      BadNext(c, counts, b, i, j);
      BadGrows(c, counts, b, i, j + 1, k);
    }
  }

  lemma {:induction false} NoFailureNoBad(c: Config, counts: seq<nat>, b: Behavior, i: nat, k: nat)
    requires IsBehavior(c, counts, b) && i < |counts| && NeverFails(b, i)
    ensures Bad(At(b, i, k)) == 0
  {
    if k == 0 {
      FirstMoment(c, counts, b, i);
      assert Bad(NewSender(counts[i])) == 0;
    } else {
      var before := k - 1;
      NoFailureNoBad(c, counts, b, i, before);
      BadNext(c, counts, b, i, before);
      assert !IsFailure(b.event(before), i);
    }
  }

  // ---- A fair sender without failures leaves ----

  /** The first turn of the thread from k on, unless work was done before. */
  lemma {:induction false} FirstTurn(c: Config, counts: seq<nat>, b: Behavior, i: nat, k: nat, j: nat) returns (m: nat)
    requires IsBehavior(c, counts, b) && i < |counts| && k <= j
    requires !Leaves(b, i, k) && (Leaves(b, i, j) || IsTurn(b.event(j), i))
    ensures Work(At(b, i, m)) < Work(At(b, i, k)) || (IsTurn(b.event(m), i) && At(b, i, m) == At(b, i, k))
    decreases j - k
  {
    Next(c, counts, b, i, k);
    HappensWork(c, At(b, i, k), At(b, i, k + 1), b.event(k), i);
    if IsTurn(b.event(k), i) {
      m := k;
    } else if Work(At(b, i, k + 1)) < Work(At(b, i, k)) {
      m := k + 1;
    } else {
      m := FirstTurn(c, counts, b, i, k + 1, j);
    }
  }

  lemma TakesTurn(c: Config, counts: seq<nat>, b: Behavior, i: nat, k: nat) returns (m: nat)
    requires IsBehavior(c, counts, b) && i < |counts| && Fair(b, i) && !Leaves(b, i, k)
    ensures Work(At(b, i, m)) < Work(At(b, i, k)) || At(b, i, m) == SenderTurn(c, At(b, i, k))
  {
    assert TurnServed(b, i, k);
    var j: nat :| k <= j && (At(b, i, j).phase == Done || IsTurn(b.event(j), i));
    m := FirstTurn(c, counts, b, i, k, j);
    if Work(At(b, i, m)) >= Work(At(b, i, k)) {
      Next(c, counts, b, i, m);
      m := m + 1;
    }
  }

  /** Work is done, or the thread leaves, whatever its phase, when it is up to the thread alone. */
  lemma ThreadWorks(c: Config, counts: seq<nat>, b: Behavior, i: nat, k: nat) returns (m: nat)
    requires IsBehavior(c, counts, b) && i < |counts| && Fair(b, i) && c.entries >= c.ring >= 1
    requires !Leaves(b, i, k) && At(b, i, k).failed == 0 && At(b, i, k).inFlight == 0
    ensures Leaves(b, i, m) || Work(At(b, i, m)) < Work(At(b, i, k))
  {
    var s := At(b, i, k);
    Next(c, counts, b, i, k);
    SomethingToDo(c, s);
    TurnWork(c, s);
    m := TakesTurn(c, counts, b, i, k);
    if ActsNow(c, s) {
      ActingWorks(c, s);
    } else if !Leaves(b, i, m) && Work(At(b, i, m)) >= Work(s) {
      var t := At(b, i, m);
      assert t == s.(phase := OtherPhase(s.phase));
      ActingWorks(c, t) by { Next(c, counts, b, i, m); }
      m := TakesTurn(c, counts, b, i, m);
    }
  }

  /** Work is done when it is up to the kernel: only phase changes come before it finishes a send. */
  lemma {:induction false} KernelWorks(c: Config, counts: seq<nat>, b: Behavior, i: nat, k: nat, j: nat) returns (m: nat)
    requires IsBehavior(c, counts, b) && i < |counts| && k <= j
    requires At(b, i, k).inFlight > 0 && (At(b, i, j).inFlight == 0 || IsFinish(b.event(j), i))
    ensures Work(At(b, i, m)) < Work(At(b, i, k))
    decreases j - k
  {
    Next(c, counts, b, i, k);
    HappensWork(c, At(b, i, k), At(b, i, k + 1), b.event(k), i);
    if Work(At(b, i, k + 1)) < Work(At(b, i, k)) {
      m := k + 1;
    } else {
      m := KernelWorks(c, counts, b, i, k + 1, j);
    }
  }

  lemma SomethingHappens(c: Config, counts: seq<nat>, b: Behavior, i: nat, k: nat) returns (m: nat)
    requires IsBehavior(c, counts, b) && i < |counts| && Fair(b, i) && c.entries >= c.ring >= 1 && NeverFails(b, i)
    requires !Leaves(b, i, k)
    ensures Leaves(b, i, m) || Work(At(b, i, m)) < Work(At(b, i, k))
  {
    NoFailureNoBad(c, counts, b, i, k);
    if At(b, i, k).inFlight == 0 {
      m := ThreadWorks(c, counts, b, i, k);
    } else {
      assert FinishServed(b, i, k);
      var j: nat :| k <= j && (At(b, i, j).inFlight == 0 || IsFinish(b.event(j), i));
      m := KernelWorks(c, counts, b, i, k, j);
    }
  }

  lemma {:induction false} LeavesFrom(c: Config, counts: seq<nat>, b: Behavior, i: nat, k: nat) returns (m: nat)
    requires IsBehavior(c, counts, b) && i < |counts| && Fair(b, i) && c.entries >= c.ring >= 1 && NeverFails(b, i)
    ensures Leaves(b, i, m)
    decreases Work(At(b, i, k))
  {
    Next(c, counts, b, i, k);
    if Leaves(b, i, k) {
      m := k;
    } else {
      m := SomethingHappens(c, counts, b, i, k);
      if !Leaves(b, i, m) {
        Next(c, counts, b, i, m);
        m := LeavesFrom(c, counts, b, i, m);
      }
    }
  }

  // ---- And no other does ----

  lemma {:induction false} DoneStays(c: Config, counts: seq<nat>, b: Behavior, i: nat, m: nat, k: nat)
    requires IsBehavior(c, counts, b) && i < |counts| && Leaves(b, i, m) && m <= k
    ensures Leaves(b, i, k)
    decreases k
  {
    if m < k {
      DoneStays(c, counts, b, i, m, k - 1);
      Next(c, counts, b, i, k - 1);
    }
  }

  lemma LeavingMeansNoFailure(c: Config, counts: seq<nat>, b: Behavior, i: nat, m: nat)
    requires IsBehavior(c, counts, b) && i < |counts| && Leaves(b, i, m)
    ensures NeverFails(b, i)
  {
    forall k: nat ensures !IsFailure(b.event(k), i) {
      if IsFailure(b.event(k), i) {
        var end := if m <= k then k + 1 else m;
        DoneStays(c, counts, b, i, m, end);
        FailedStays(c, counts, b, i, k, end);
      }
    }
  }

  lemma FailedStays(c: Config, counts: seq<nat>, b: Behavior, i: nat, k: nat, m: nat)
    requires IsBehavior(c, counts, b) && i < |counts| && IsFailure(b.event(k), i) && k < m
    ensures !Leaves(b, i, m)
  {
    if Leaves(b, i, m) {
      NothingBadWhenLeaving(c, counts, b, i, m);
      BadSince(c, counts, b, i, k, m);
    }
  }

  lemma BadSince(c: Config, counts: seq<nat>, b: Behavior, i: nat, k: nat, m: nat)
    requires IsBehavior(c, counts, b) && i < |counts| && IsFailure(b.event(k), i) && k < m
    ensures Bad(At(b, i, m)) > 0
  {
    var after := k + 1;
    BadNext(c, counts, b, i, k);
    BadGrows(c, counts, b, i, after, m);
  }

  lemma NothingBadWhenLeaving(c: Config, counts: seq<nat>, b: Behavior, i: nat, m: nat)
    requires IsBehavior(c, counts, b) && i < |counts| && Leaves(b, i, m)
    ensures Bad(At(b, i, m)) == 0
  {
    Next(c, counts, b, i, m);
    NothingBadWhenDone(c, At(b, i, m));
  }

  lemma NothingBadWhenDone(c: Config, s: Sender)
    requires SenderInv(c, s) && s.phase == Done
    ensures Bad(s) == 0
  {
    ExitIsExact(c, s);
  }

  lemma {:induction false} NoWindowNothingSent(c: Config, counts: seq<nat>, b: Behavior, i: nat, k: nat)
    requires IsBehavior(c, counts, b) && i < |counts| && c.ring == 0
    ensures At(b, i, k).sent == 0
  {
    if k == 0 {
      FirstMoment(c, counts, b, i);
    } else {
      NoWindowNothingSent(c, counts, b, i, k - 1);
      Next(c, counts, b, i, k - 1);
    }
  }

  /** A fair sender leaves its loop exactly when it has nothing to send, or has a window and none of its sends fails. */
  lemma FairSenderLeavesIff(c: Config, counts: seq<nat>, b: Behavior, i: nat)
    requires c.entries >= c.ring && IsBehavior(c, counts, b) && i < |counts| && Fair(b, i)
    ensures (exists k: nat :: Leaves(b, i, k)) <==> counts[i] == 0 || (c.ring >= 1 && NeverFails(b, i))
  {
    FirstMoment(c, counts, b, i);
    if counts[i] == 0 {
      assert Leaves(b, i, 0);
    } else if c.ring >= 1 && NeverFails(b, i) {
      var m := LeavesFrom(c, counts, b, i, 0);
    } else {
      forall k: nat ensures !Leaves(b, i, k) {
        if c.ring == 0 {
          NoWindowNothingSent(c, counts, b, i, k);
          Next(c, counts, b, i, k);
        } else if Leaves(b, i, k) {
          LeavingMeansNoFailure(c, counts, b, i, k);
        }
      }
    }
  }

  ghost predicate HasNotLeft(s: State, i: nat) {
    i < |s.connections| && s.connections[i].sender.phase != Done
  }

  /** The run can be made, and after it the sender of connection 0 cannot leave, whatever comes. */
  ghost predicate FailsForGood(c: Config, counts: seq<nat>, run: seq<Step>) {
    && Legal(c, Start(c, counts), run)
    && forall more :: Legal(c, After(c, Start(c, counts), run), more) ==>
         HasNotLeft(After(c, After(c, Start(c, counts), run), more), 0)
  }

  /** One request whose send fails, with a ring of one entry and pages of four bytes. */
  lemma FailingRun()
    ensures exists run :: FailsForGood(Config(1, 1, 4), [1], run)
  {
    var run := FailingRunOf(Config(1, 1, 4), [1]);
  }

  lemma FailingRunOf(c: Config, counts: seq<nat>) returns (run: seq<Step>)
    requires c.ring == c.entries == 1 && counts == [1]
    ensures FailsForGood(c, counts, run)
  {
    StartInv(c, counts);
    run := [];
    var fresh0 := NewSender(1);
    var queued := OneTurn(c, counts, run, fresh0);
    run := run + [SenderStep(0)];
    var submitted := OneTurn(c, counts, run, queued);
    run := run + [SenderStep(0)];
    var completed := OneFailure(c, counts, run, submitted);
    run := run + [SendDone(0, -1)];
    var reaped := OneTurn(c, counts, run, completed);
    run := run + [SenderStep(0)];
    assert reaped.failed == 1;
    FailedForGood(c, counts, run);
  }

  /** The run can be made and brings the sender of connection 0 there. */
  ghost predicate BringsTo(c: Config, counts: seq<nat>, run: seq<Step>, s: Sender) {
    && Legal(c, Start(c, counts), run)
    && |After(c, Start(c, counts), run).connections| == |counts| > 0
    && After(c, Start(c, counts), run).connections[0].sender == s
  }

  lemma OneTurn(c: Config, counts: seq<nat>, run: seq<Step>, s: Sender) returns (t: Sender)
    requires BringsTo(c, counts, run, s) && s.phase != Done
    ensures t == SenderTurn(c, s) && BringsTo(c, counts, run + [SenderStep(0)], t)
  {
    AppendStep(c, Start(c, counts), run, SenderStep(0));
    t := SenderTurn(c, s);
  }

  lemma OneFailure(c: Config, counts: seq<nat>, run: seq<Step>, s: Sender) returns (t: Sender)
    requires BringsTo(c, counts, run, s) && s.inFlight > 0
    ensures t == FinishSend(s, -1) && BringsTo(c, counts, run + [SendDone(0, -1)], t)
  {
    AppendStep(c, Start(c, counts), run, SendDone(0, -1));
    t := FinishSend(s, -1);
  }

  lemma FailedForGood(c: Config, counts: seq<nat>, run: seq<Step>)
    requires Legal(c, Start(c, counts), run)
    requires var s := After(c, Start(c, counts), run); |s.connections| > 0 && s.connections[0].sender.failed > 0
    ensures FailsForGood(c, counts, run)
  {
    StartInv(c, counts);
    RunKeepsInv(c, Start(c, counts), counts, run);
    var s := After(c, Start(c, counts), run);
    forall more | Legal(c, s, more) ensures HasNotLeft(After(c, s, more), 0) {
      FailureIsForever(c, s, counts, more, 0);
    }
  }

  // ---- Sending nothing more ----

  /** Whatever comes, sender i sends, completes and fails no more. */
  ghost predicate StandsStill(c: Config, s: State, i: nat)
    requires i < |s.connections|
  {
    forall run :: Legal(c, s, run) ==> SameProgress(s, After(c, s, run), i)
  }

  ghost predicate SameProgress(s: State, t: State, i: nat) {
    && i < |s.connections| && i < |t.connections|
    && var a, b := s.connections[i].sender, t.connections[i].sender;
       a.sent == b.sent && a.completed == b.completed && a.failed == b.failed
  }

  /** Everything sent is accounted for, and failures have used up the window or the requests. */
  predicate Exhausted(c: Config, s: Sender) {
    s.sent == s.completed + s.failed && (s.failed >= c.ring || s.sent == s.n)
  }

  lemma {:induction false} ExhaustedStays(c: Config, s: State, counts: seq<nat>, run: seq<Step>, i: nat)
    requires Inv(c, s, counts) && Legal(c, s, run) && i < |counts| && Exhausted(c, s.connections[i].sender)
    ensures SameProgress(s, After(c, s, run), i)
    decreases |run|
  {
    if run != [] {
      StepKeepsInv(c, s, counts, run[0]);
      ExhaustedStays(c, Apply(c, s, run[0]), counts, run[1..], i);
    }
  }

  /** How many steps a sender with something left is away from sending, completing or failing. */
  function Away(c: Config, s: Sender): nat {
    if s.phase == Filling then (if FillGuard(c, s) then 0 else 2)
    else if s.cq != [] then 0
    else if s.inFlight > 0 then 1
    else 3
  }

  function StepTowards(c: Config, s: Sender, i: nat): Step {
    if s.phase == Reaping && s.cq == [] && s.inFlight > 0 then SendDone(i, 0) else SenderStep(i)
  }

  lemma ComesCloser(c: Config, s: Sender)
    requires SenderInv(c, s) && c.entries >= c.ring && s.phase != Done && !Exhausted(c, s)
    ensures var t := if s.phase == Reaping && s.cq == [] && s.inFlight > 0 then FinishSend(s, 0) else SenderTurn(c, s);
            if Away(c, s) == 0 then t.sent != s.sent || t.completed != s.completed || t.failed != s.failed
            else && t.sent == s.sent && t.completed == s.completed && t.failed == s.failed
                 && t.phase != Done && Away(c, t) < Away(c, s)
  {
  }

  lemma {:induction false} MovesOn(c: Config, s: State, counts: seq<nat>, i: nat) returns (run: seq<Step>)
    requires Inv(c, s, counts) && i < |counts| && c.entries >= c.ring
    requires s.connections[i].sender.phase != Done && !Exhausted(c, s.connections[i].sender)
    ensures Legal(c, s, run) && !SameProgress(s, After(c, s, run), i)
    decreases Away(c, s.connections[i].sender)
  {
    var sender := s.connections[i].sender;
    var step := StepTowards(c, sender, i);
    var t := Apply(c, s, step);
    ComesCloser(c, sender);
    StepKeepsInv(c, s, counts, step);
    var rest: seq<Step> := [];
    if Away(c, sender) > 0 { rest := MovesOn(c, t, counts, i); }
    run := [step] + rest;
    assert run[1..] == rest;
    assert After(c, s, run) == After(c, t, rest);
  }

  /** An unfinished sender sends, completes and fails nothing more exactly when it is exhausted. */
  lemma StuckIffWindowFailed(c: Config, s: State, counts: seq<nat>, i: nat)
    requires Inv(c, s, counts) && i < |counts| && c.entries >= c.ring && s.connections[i].sender.phase != Done
    ensures StandsStill(c, s, i) <==> Exhausted(c, s.connections[i].sender)
  {
    if Exhausted(c, s.connections[i].sender) {
      forall run | Legal(c, s, run) ensures SameProgress(s, After(c, s, run), i) {
        ExhaustedStays(c, s, counts, run, i);
      }
    } else {
      var run := MovesOn(c, s, counts, i);
    }
  }

  // ---- There are fair runs, with and without failures ----

  function Min(a: nat, b: nat): nat { if a < b then a else b }

  /**
   The k-th event, going round the connections: the sender's turn, the kernel's for a send, all of which end with res,
   and for a read, which takes what is there up to a whole buffer, and the receiver's turn.
   */
  function EventAt(c: Config, s: State, res: int, k: nat): Event {
    if s.connections == [] then Pause
    else
      var i := k / 4 % |s.connections|;
      var step := match k % 4
        case 0 => SenderStep(i)
        case 1 => SendDone(i, res)
        case 2 => ReadDone(i, Min(s.connections[i].stream, c.pageBytes))
        case _ => ReceiverStep(i);
      if Enabled(c, s, step) then Take(step) else Pause
  }

  function StateAt(c: Config, counts: seq<nat>, res: int, k: nat): State {
    if k == 0 then Start(c, counts)
    else
      var s := StateAt(c, counts, res, k - 1);
      match EventAt(c, s, res, k - 1)
      case Take(step) => Apply(c, s, step)
      case Pause => s
  }

  function RoundRobin(c: Config, counts: seq<nat>, res: int): Behavior {
    Behavior((k: nat) => StateAt(c, counts, res, k), (k: nat) => EventAt(c, StateAt(c, counts, res, k), res, k))
  }

  lemma RoundRobinIsBehavior(c: Config, counts: seq<nat>, res: int)
    ensures IsBehavior(c, counts, RoundRobin(c, counts, res))
  {
    var b := RoundRobin(c, counts, res);
    forall k: nat ensures Follows(c, b, k) {
      assert b.state(k) == StateAt(c, counts, res, k) && b.state(k + 1) == StateAt(c, counts, res, k + 1);
    }
  }

  lemma ItsTurn(k: nat, i: nat, m: nat, quarter: nat) returns (j: nat)
    requires i < m && quarter < 4
    ensures k <= j && j % 4 == quarter && j / 4 % m == i
  {
    j := 4 * (k * m + i) + quarter;
    DivMod(k * m + i, k, i, m);
    AtMost(1, m, k);
  }

  lemma EventIs(c: Config, s: State, res: int, i: nat, j: nat)
    requires i < |s.connections| && j / 4 % |s.connections| == i
    ensures j % 4 == 0 ==> s.connections[i].sender.phase == Done || IsTurn(EventAt(c, s, res, j), i)
    ensures j % 4 == 1 && res <= c.pageBytes ==> s.connections[i].sender.inFlight == 0 || IsFinish(EventAt(c, s, res, j), i)
  {
  }

  lemma TurnComes(c: Config, counts: seq<nat>, res: int, i: nat, k: nat)
    requires i < |counts|
    ensures TurnServed(RoundRobin(c, counts, res), i, k)
  {
    var b := RoundRobin(c, counts, res);
    var j := ItsTurn(k, i, |counts|, 0);
    RoundRobinIsBehavior(c, counts, res);
    BehaviorInv(c, counts, b, j);
    EventIs(c, b.state(j), res, i, j);
    assert At(b, i, j).phase == Done || IsTurn(b.event(j), i);
  }

  lemma FinishComes(c: Config, counts: seq<nat>, res: int, i: nat, k: nat)
    requires i < |counts| && res <= c.pageBytes
    ensures FinishServed(RoundRobin(c, counts, res), i, k)
  {
    var b := RoundRobin(c, counts, res);
    var j := ItsTurn(k, i, |counts|, 1);
    RoundRobinIsBehavior(c, counts, res);
    BehaviorInv(c, counts, b, j);
    EventIs(c, b.state(j), res, i, j);
    assert At(b, i, j).inFlight == 0 || IsFinish(b.event(j), i);
  }

  /** Going round is fair to every connection, so FairSenderLeavesIff speaks of runs that there are, on both its sides. */
  lemma RoundRobinIsFair(c: Config, counts: seq<nat>, res: int, i: nat)
    requires i < |counts| && res <= c.pageBytes
    ensures IsBehavior(c, counts, RoundRobin(c, counts, res)) && Fair(RoundRobin(c, counts, res), i)
  {
    RoundRobinIsBehavior(c, counts, res);
    forall k: nat ensures TurnServed(RoundRobin(c, counts, res), i, k) && FinishServed(RoundRobin(c, counts, res), i, k) {
      TurnComes(c, counts, res, i, k);
      FinishComes(c, counts, res, i, k);
    }
  }
}
