/** Run of syncer.go: triggers, debounce and backoff, as a state machine over the interleaved
    steps of the notifiers, the timer and the loop. */
module RunLoop {
  /** The debounce timer: stopped, running, or expired with its value still to be received. */
  datatype Timer = Stopped | Armed | Fired

  /** The loop waits for an event, runs a pass, or sleeps after a failed one. */
  datatype Phase = Waiting | Passing | Sleeping

  /** `trigger` says whether the one-place channel holds a token, `unserved` whether there has
      been a notification since the last pass began. */
  datatype State = State(trigger: bool, pending: bool, debounce: Timer, phase: Phase, backoff: nat, failing: bool,
                         ghost unserved: bool)

  datatype Step = Notify | TakeTrigger | Expire | StartPass | Succeed | Fail | WakeUp

  const FIRST_BACKOFF := 1
  const BACKOFF_CAP := 30

  /** After the first notify(), before the loop. */
  function Initial(): State {
    State(true, false, Stopped, Waiting, FIRST_BACKOFF, false, true)
  }

  predicate Enabled(s: State, step: Step) {
    match step
    case Notify => true
    case TakeTrigger => s.phase == Waiting && s.trigger
    case Expire => s.debounce == Armed
    case StartPass => s.phase == Waiting && s.debounce == Fired
    case Succeed => s.phase == Passing
    case Fail => s.phase == Passing
    case WakeUp => s.phase == Sleeping
  }

  function NextBackoff(b: nat): nat {
    if b < BACKOFF_CAP then b * 2 else b
  }

  function Next(s: State, step: Step): State
    requires Enabled(s, step)
  {
    match step
    case Notify => s.(trigger := true, unserved := true)
    case TakeTrigger => if s.pending then s.(trigger := false)
        else s.(trigger := false, pending := true, debounce := Armed)
    case Expire => s.(debounce := Fired)
    case StartPass => s.(pending := false, debounce := Stopped, phase := Passing, unserved := false)
    case Succeed => s.(phase := Waiting, failing := false, backoff := FIRST_BACKOFF)
    case Fail => s.(phase := Sleeping, failing := true)
    case WakeUp => s.(phase := Waiting, backoff := NextBackoff(s.backoff), trigger := true, unserved := true)
  }

  // ---------- the loop's own code ----------

  class Loop {
    var trigger: bool
    var pending: bool
    var debounce: Timer
    var phase: Phase
    var backoff: nat
    var failing: bool
    ghost var unserved: bool

    constructor ()
      ensures Now() == Initial()
    {
      trigger, pending, debounce, phase := true, false, Stopped, Waiting;
      backoff, failing, unserved := 1, false, true;
    }

    ghost function Now(): State
      reads this
    {
      State(trigger, pending, debounce, phase, backoff, failing, unserved)
    }

    /** notify: a token goes into the channel unless there is one. */
    method Notify()
      modifies this
      ensures Now() == Next(old(Now()), Step.Notify)
    {
      if !trigger { trigger := true; }
      unserved := true;
    }

    /** case <-trigger */
    method OnTrigger()
      requires Enabled(Now(), TakeTrigger)
      modifies this
      ensures Now() == Next(old(Now()), TakeTrigger)
    {
      trigger := false;
      if !pending {
        pending := true;
        debounce := Armed;
      }
    }

    /** case <-debounce.C, up to the call of SyncOnce. */
    method OnDebounce()
      requires Enabled(Now(), StartPass)
      modifies this
      ensures Now() == Next(old(Now()), StartPass)
    {
      debounce := Stopped;
      pending := false;
      phase := Passing;
      unserved := false;
    }

    /** SyncOnce has returned. After a failure the loop first sleeps. */
    method AfterPass(ok: bool)
      requires phase == Passing
      modifies this
      ensures Now() == Next(old(Now()), if ok then Succeed else Fail)
    {
      if !ok {
        failing := true;
        phase := Sleeping;
      } else {
        if failing { failing := false; }
        backoff := 1;
        phase := Waiting;
      }
    }

    /** The rest of the failure branch, when the sleep is over. */
    method AfterSleep()
      requires phase == Sleeping
      modifies this
      ensures Now() == Next(old(Now()), WakeUp)
    {
      phase := Waiting;
      if backoff < 30 { backoff := backoff * 2; }
      Notify();
    }
  }

  // ---------- safety over every interleaving ----------

  ghost predicate Invariant(s: State) {
    && (s.unserved ==> s.trigger || s.debounce != Stopped)
    && (s.pending <==> s.debounce != Stopped)
    && (s.phase != Waiting ==> s.debounce == Stopped)
    && s.backoff in {1, 2, 4, 8, 16, 32}
  }

  lemma InvariantStays(s: State, step: Step)
    requires Invariant(s) && Enabled(s, step)
    ensures Invariant(Next(s, step))
  {
  }

  ghost predicate IsRun(states: seq<State>, steps: seq<Step>) {
    && |states| == |steps| + 1 && states[0] == Initial()
    && forall i :: 0 <= i < |steps| ==> Enabled(states[i], steps[i]) && states[i + 1] == Next(states[i], steps[i])
  }

  /** No wake-up is ever lost: in every state of every run a notification not yet followed by
      the start of a pass has left a token or a debounce on its way; and the next sleep is
      between 1 and 32 seconds. */
  lemma {:induction false} NoWakeUpIsLost(states: seq<State>, steps: seq<Step>, i: nat)
    requires IsRun(states, steps) && i < |states|
    ensures Invariant(states[i])
    ensures states[i].unserved ==> states[i].trigger || states[i].debounce != Stopped
    ensures 1 <= states[i].backoff <= 32
    decreases i
  {
    if i > 0 {
      NoWakeUpIsLost(states, steps, i - 1);
      InvariantStays(states[i - 1], steps[i - 1]);
    }
  }

  /** How many passes have failed in a row before the i-th state. */
  function FailuresInARow(steps: seq<Step>, i: nat): nat
    requires i <= |steps|
  {
    if i == 0 || steps[i - 1] == Succeed then 0
    else FailuresInARow(steps, i - 1) + if steps[i - 1] == Fail then 1 else 0
  }

  function PowerOfTwo(k: nat): nat {
    if k == 0 then 1 else 2 * PowerOfTwo(k - 1)
  }

  function Min(a: nat, b: nat): nat {
    if a < b then a else b
  }

  /** After k failures in a row, their sleeps being over, the next sleep is the smaller of 2^k and
      32 seconds; in the sleep after the k-th it is that of k - 1. A success starts over. */
  lemma {:induction false} SleepsDouble(states: seq<State>, steps: seq<Step>, i: nat)
    requires IsRun(states, steps) && i < |states|
    ensures var k := FailuresInARow(steps, i);
            && (states[i].failing <==> k > 0)
            && (states[i].phase == Sleeping ==> k > 0)
            && states[i].backoff == Min(PowerOfTwo(if states[i].phase == Sleeping then k - 1 else k), 32)
    decreases i
  {
    if i > 0 {
      SleepsDouble(states, steps, i - 1);
      var k := FailuresInARow(steps, i - 1);
      if states[i - 1].phase == Sleeping { DoublingIsCapped(k - 1); }
    }
  }

  lemma {:induction false} DoublingIsCapped(k: nat)
    ensures NextBackoff(Min(PowerOfTwo(k), 32)) == Min(PowerOfTwo(k + 1), 32)
  {
    if k >= 5 { AtLeast32(k); }
  }

  lemma {:induction false} AtLeast32(k: nat)
    requires k >= 5
    ensures PowerOfTwo(k) >= 32
    decreases k
  {
    if k > 5 { AtLeast32(k - 1); }
  }

  // ---------- every owed pass starts ----------

  /** A notification is unserved, or the last pass failed and its retry is still to be notified. */
  ghost predicate Owed(s: State) {
    s.unserved || s.phase == Sleeping
  }

  /** How far away the start of a pass is. */
  function Distance(s: State): nat {
    match s.phase
    case Passing => 5
    case Sleeping => 4
    case Waiting => (match s.debounce case Stopped => 3 case Armed => 2 case Fired => 1)
  }

  /** The step that brings the pass nearer; a running pass ends one way or the other. */
  predicate Helps(s: State, step: Step) {
    match s.phase
    case Passing => step == Succeed || step == Fail
    case Sleeping => step == WakeUp
    case Waiting =>
      (match s.debounce
       case Stopped => step == TakeTrigger
       case Armed => step == Expire
       case Fired => step == StartPass)
  }

  lemma HelpfulStep(s: State, step: Step)
    requires Invariant(s) && Owed(s) && Helps(s, step)
    ensures Enabled(s, step)
    ensures step == StartPass || (Owed(Next(s, step)) && Distance(Next(s, step)) < Distance(s))
  {
  }

  /** No other step spoils anything. */
  lemma OtherStep(s: State, step: Step)
    requires Invariant(s) && Owed(s) && Enabled(s, step) && !Helps(s, step)
    ensures Owed(Next(s, step)) && Distance(Next(s, step)) == Distance(s)
    ensures forall h :: Helps(Next(s, step), h) <==> Helps(s, h)
  {
  }

  ghost predicate StepsOn(states: nat -> State, steps: nat -> Step, i: nat) {
    Enabled(states(i), steps(i)) && states(i + 1) == Next(states(i), steps(i))
  }

  ghost predicate HelpComes(states: nat -> State, steps: nat -> Step, i: nat) {
    exists k: nat :: k >= i && Helps(states(k), steps(k))
  }

  /** An endless run in which a step that would help is not put off forever. */
  ghost predicate FairRun(states: nat -> State, steps: nat -> Step) {
    && states(0) == Initial()
    && (forall i: nat {:trigger StepsOn(states, steps, i)} :: StepsOn(states, steps, i))
    && (forall i: nat {:trigger HelpComes(states, steps, i)} :: HelpComes(states, steps, i))
  }

  lemma {:induction false} FairRunIsInvariant(states: nat -> State, steps: nat -> Step, i: nat)
    requires FairRun(states, steps)
    ensures Invariant(states(i))
    decreases i
  {
    if i > 0 {
      FairRunIsInvariant(states, steps, i - 1);
      assert StepsOn(states, steps, i - 1);
      InvariantStays(states(i - 1), steps(i - 1));
    }
  }

  /** Up to the next helpful step the distance stays. */
  lemma {:induction false} Walk(states: nat -> State, steps: nat -> Step, i: nat, k: nat)
    requires FairRun(states, steps) && i <= k && Owed(states(i))
    requires forall m: nat :: i <= m < k ==> !Helps(states(m), steps(m))
    ensures Owed(states(k)) && Distance(states(k)) == Distance(states(i))
    decreases k - i
  {
    if i < k {
      FairRunIsInvariant(states, steps, i);
      assert StepsOn(states, steps, i);
      OtherStep(states(i), steps(i));
      Walk(states, steps, i + 1, k);
    }
  }

  lemma FirstHelp(states: nat -> State, steps: nat -> Step, i: nat, k: nat) returns (first: nat)
    requires i <= k && Helps(states(k), steps(k))
    ensures i <= first <= k && Helps(states(first), steps(first))
    ensures forall m: nat :: i <= m < first ==> !Helps(states(m), steps(m))
    decreases k - i
  {
    if Helps(states(i), steps(i)) {
      first := i;
    } else {
      first := FirstHelp(states, steps, i + 1, k);
    }
  }

  /** Every notification is followed by the start of a pass, and so is every failed pass, on
      every fair interleaving. */
  lemma {:induction false} EveryOwedPassStarts(states: nat -> State, steps: nat -> Step, i: nat) returns (j: nat)
    requires FairRun(states, steps) && Owed(states(i))
    ensures j >= i && steps(j) == StartPass
    decreases Distance(states(i))
  {
    assert HelpComes(states, steps, i);
    var k: nat :| k >= i && Helps(states(k), steps(k));
    var first := FirstHelp(states, steps, i, k);
    Walk(states, steps, i, first);
    FairRunIsInvariant(states, steps, first);
    var step := steps(first);
    assert StepsOn(states, steps, first);
    HelpfulStep(states(first), step);
    if step == StartPass {
      j := first;
    } else {
      j := EveryOwedPassStarts(states, steps, first + 1);
    }
  }

  /** In particular a failed pass is followed by another one. */
  lemma FailedPassIsRetried(states: nat -> State, steps: nat -> Step, i: nat) returns (j: nat)
    requires FairRun(states, steps) && steps(i) == Fail
    ensures j > i && steps(j) == StartPass
  {
    assert StepsOn(states, steps, i);
    j := EveryOwedPassStarts(states, steps, i + 1);
  }

  // ---------- fair runs exist ----------

  /** A run that goes round and round: a pass that fails, its retry, and a new notification. */
  function RoundStep(i: nat): Step {
    var r := i % 10;
    if r == 0 || r == 5 then TakeTrigger
    else if r == 1 || r == 6 then Expire
    else if r == 2 || r == 7 then StartPass
    else if r == 3 then Fail
    else if r == 4 then WakeUp
    else if r == 8 then Succeed
    else Step.Notify
  }

  ghost function RoundState(i: nat): State {
    var r := i % 10;
    if r == 0 then Initial()
    else if r == 1 then State(false, true, Armed, Waiting, 1, false, true)
    else if r == 2 then State(false, true, Fired, Waiting, 1, false, true)
    else if r == 3 then State(false, false, Stopped, Passing, 1, false, false)
    else if r == 4 then State(false, false, Stopped, Sleeping, 1, true, false)
    else if r == 5 then State(true, false, Stopped, Waiting, 2, true, true)
    else if r == 6 then State(false, true, Armed, Waiting, 2, true, true)
    else if r == 7 then State(false, true, Fired, Waiting, 2, true, true)
    else if r == 8 then State(false, false, Stopped, Passing, 2, true, false)
    else State(false, false, Stopped, Waiting, 1, false, false)
  }

  /** There are fair runs, also such in which a pass fails. */
  lemma FairRunsExist()
    ensures FairRun(RoundState, RoundStep) && RoundStep(3) == Fail
  {
    var states: nat -> State, steps: nat -> Step := RoundState, RoundStep;
    forall i: nat
      ensures StepsOn(states, steps, i)
    {
      RoundGoesOn(i);
    }
    forall i: nat
      ensures HelpComes(states, steps, i)
    {
      var k := 10 * i;
      assert k >= i && k % 10 == 0;
      assert Helps(states(k), steps(k));
    }
  }

  lemma RoundGoesOn(i: nat)
    ensures Enabled(RoundState(i), RoundStep(i)) && RoundState(i + 1) == Next(RoundState(i), RoundStep(i))
  {
    assert (i + 1) % 10 == if i % 10 == 9 then 0 else i % 10 + 1;
  }
}
