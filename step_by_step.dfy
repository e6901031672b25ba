/** The step wizard of app/common/step_by_step.py: a step counter `now` and a flag `rst` kept
    in the session, changed by three button callbacks, and the rule deciding which buttons are
    offered on each step. A session key that was never written is `None`. */
module Wizard {
  import opened Options

  datatype Button = Next | Back | Restart

  /** `buttons(now)`: the buttons offered, left to right. */
  function Buttons(now: int): (bs: seq<Button>)
    ensures Next in bs <==> now <= 1
    ensures Back in bs <==> now >= 1
    ensures Restart in bs <==> now >= 2
    ensures |bs| >= 1
  {
    (if now <= 1 then [Next] else []) + (if now >= 1 then [Back] else []) + (if now >= 2 then [Restart] else [])
  }

  /** The two session keys the wizard uses. */
  datatype State = State(now: Option<int>, rst: Option<bool>)

  /** `initialize_state`: both keys are set only when `now` is absent. */
  function Initialized(s: State): (t: State)
    ensures s.now.None? ==> t == State(Some(0), Some(false))
    ensures s.now.Some? ==> t == s
  {
    if s.now.None? then State(Some(0), Some(false)) else s
  }

  /** What pressing an offered button does: "next" calls `countup(_reset)` with the default
      `_reset = False`, "back" calls `countdown`, "restart" calls `reset`. */
  function Step(s: State, b: Button): (t: State)
    requires s.now.Some?
    ensures t.now.Some?
    ensures b == Next ==> t == State(Some(s.now.value + 1), Some(false))
    ensures b == Back ==> t == State(Some(s.now.value - 1), s.rst)
    ensures b == Restart ==> t == State(Some(0), s.rst)
  {
    match b
    case Next => State(Some(s.now.value + 1), Some(false))
    case Back => State(Some(s.now.value - 1), s.rst)
    case Restart => State(Some(0), s.rst)
  }

  /** Presses each button in turn, as long as it is offered on the step reached; None when one
      is not on screen. */
  function Run(s: State, presses: seq<Button>): (r: Option<State>)
    requires s.now.Some?
    ensures r.Some? ==> r.value.now.Some?
    decreases |presses|
  {
    if |presses| == 0 then Some(s)
    else if presses[0] !in Buttons(s.now.value) then None
    else Run(Step(s, presses[0]), presses[1..])
  }

  /** On one of the three steps, with the flag cleared. */
  predicate InRange(s: State) {
    s.now.Some? && 0 <= s.now.value <= 2 && s.rst == Some(false)
  }

  /** Initialising twice is initialising once. */
  lemma InitializeIdempotent(s: State)
    ensures Initialized(Initialized(s)) == Initialized(s)
  {
  }

  /** An offered button keeps the wizard on one of the three steps. */
  lemma StepInRange(s: State, b: Button)
    requires InRange(s) && b in Buttons(s.now.value)
    ensures InRange(Step(s, b))
  {
  }

  /** From a fresh session, any sequence of presses on offered buttons stays on steps 0..2
      with the flag cleared. */
  lemma {:induction false} RunInRange(s: State, presses: seq<Button>)
    requires InRange(s)
    ensures Run(s, presses).Some? ==> InRange(Run(s, presses).value)
    decreases |presses|
  {
    if |presses| > 0 && presses[0] in Buttons(s.now.value) {
      StepInRange(s, presses[0]);
      RunInRange(Step(s, presses[0]), presses[1..]);
    }
  }

  /** The first visit starts on step 0, and every offered path from there stays in range. */
  lemma FreshSessionInRange(presses: seq<Button>)
    ensures InRange(Initialized(State(None, None)))
    ensures var r := Run(Initialized(State(None, None)), presses); r.Some? ==> InRange(r.value)
  {
    RunInRange(Initialized(State(None, None)), presses);
  }

  /** `StepByStep`: the wizard's view of the session state. */
  class StepByStep {
    var now: Option<int>
    var rst: Option<bool>

    function Snapshot(): State
      reads this
    {
      State(now, rst)
    }

    /** `StepByStep()`: bind to the session (whose keys are given) and initialise it. */
    constructor (prior: State)
      ensures Snapshot() == Initialized(prior)
    {
      now := prior.now;
      rst := prior.rst;
      new;
      InitializeState();
    }

    /** `initialize_state`. */
    method InitializeState()
      modifies this
      ensures Snapshot() == Initialized(old(Snapshot()))
    {
      if now.None? {
        now := Some(0);
        rst := Some(false);
      }
    }

    /** `countup(reset)`: the next step, and the flag set to `reset`. */
    method Countup(reset: bool)
      requires now.Some?
      modifies this
      ensures now == Some(old(now.value) + 1) && rst == Some(reset)
    {
      now := Some(now.value + 1);
      rst := Some(reset);
    }

    /** `countdown`: the previous step; the flag is left alone. */
    method Countdown()
      requires now.Some?
      modifies this
      ensures now == Some(old(now.value) - 1) && rst == old(rst)
    {
      now := Some(now.value - 1);
    }

    /** `reset`: back to the first step; the flag is left alone. */
    method Reset()
      modifies this
      ensures now == Some(0) && rst == old(rst)
    {
      now := Some(0);
    }

    /** A click on one of the buttons `buttons(now)` put on screen runs its callback. */
    method Press(b: Button)
      requires now.Some? && b in Buttons(now.value)
      modifies this
      ensures Snapshot() == Step(old(Snapshot()), b)
      ensures InRange(old(Snapshot())) ==> InRange(Snapshot())
    {
      if InRange(Snapshot()) {
        StepInRange(Snapshot(), b);
      }
      match b {
        case Next => Countup(false);
        case Back => Countdown();
        case Restart => Reset();
      }
    }
  }
}
