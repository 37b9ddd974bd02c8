/** The editor's setup-flow state machine (editor/SetupFlow/SetupFlow.swift):
    a transition table over the setup screens with a back-stack. */
module SetupFlow {
  import opened Wrappers

  datatype SetupFlowState = Start | ProjectInfo | ProjectLoad | BrowsingProject | Complete

  datatype SetupFlowEvent =
    | NewProject | OpenProject | ContinueSetup | AsyncJobFinished | FilePicked
    | CancelSetup | CancelImageInstall | Back

  /** The machine's state: the screen shown and the screens to go back to. */
  datatype Config = Config(currentState: SetupFlowState, stateHistory: seq<SetupFlowState>)

  /** The `fatalError` of the default case. */
  datatype Trap = DefaultCaseHit(currentState: SetupFlowState, event: SetupFlowEvent)

  /** The forward transitions of the table; `Back` and every other pair
      have none. */
  function Forward(s: SetupFlowState, e: SetupFlowEvent): (r: Option<SetupFlowState>)
    ensures e == Back ==> r.None?
    ensures s == Complete ==> r.None?
    ensures r.Some? ==> r.value != s
  {
    match (s, e)
    case (Start, OpenProject) => Some(BrowsingProject)
    case (BrowsingProject, CancelSetup) => Some(Start)
    case (BrowsingProject, FilePicked) => Some(ProjectLoad)
    case (ProjectLoad, CancelSetup) => Some(Start)
    case (ProjectLoad, AsyncJobFinished) => Some(Complete)
    case (Start, NewProject) => Some(ProjectInfo)
    case (ProjectInfo, ContinueSetup) => Some(Complete)
    case _ => None
  }

  /** `handleEvent`: a forward transition pushes the current screen and moves
      on; `Back` pops the last screen when there is one; anything else
      traps. */
  function Step(c: Config, e: SetupFlowEvent): Result<Config, Trap>
  {
    var next := Forward(c.currentState, e);
    if next.Some? then Success(Config(next.value, c.stateHistory + [c.currentState]))
    else if e == Back then
      if c.stateHistory == [] then Success(c)
      else Success(Config(c.stateHistory[|c.stateHistory| - 1], c.stateHistory[..|c.stateHistory| - 1]))
    else Failure(DefaultCaseHit(c.currentState, e))
  }

  /** Exactly the seven table entries are forward transitions. */
  lemma ForwardTable(s: SetupFlowState, e: SetupFlowEvent)
    ensures Forward(s, e).Some? <==>
      (s, e) in {(Start, OpenProject), (BrowsingProject, CancelSetup), (BrowsingProject, FilePicked),
                 (ProjectLoad, CancelSetup), (ProjectLoad, AsyncJobFinished), (Start, NewProject),
                 (ProjectInfo, ContinueSetup)}
  {
  }

  /** The step traps exactly on an event other than `Back` with no table
      entry; `Back` never pushes and pops at most one screen. */
  lemma StepOutcomes(c: Config, e: SetupFlowEvent)
    ensures Step(c, e).Failure? <==> e != Back && Forward(c.currentState, e).None?
    ensures e == Back && c.stateHistory == [] ==> Step(c, e) == Success(c)
    ensures e == Back && c.stateHistory != [] ==>
      Step(c, e).Success? && Step(c, e).value.stateHistory + [Step(c, e).value.currentState] == c.stateHistory
    ensures e != Back && Step(c, e).Success? ==>
      Step(c, e).value.stateHistory == c.stateHistory + [c.currentState]
  {
    if e == Back && c.stateHistory != [] {
      var h := c.stateHistory;
      assert h[..|h| - 1] + [h[|h| - 1]] == h;
    }
  }

  /** A forward step followed by `Back` restores the screen and the
      history. */
  lemma ForwardThenBack(c: Config, e: SetupFlowEvent)
    requires Forward(c.currentState, e).Some?
    ensures Step(c, e).Success? && Step(Step(c, e).value, Back) == Success(c)
  {
    var c' := Step(c, e).value;
    assert c'.stateHistory[..|c'.stateHistory| - 1] == c.stateHistory;
  }

  /** Every event in `Complete` other than `Back` traps. */
  lemma CompleteOnlyGoesBack(c: Config, e: SetupFlowEvent)
    requires c.currentState == Complete && e != Back
    ensures Step(c, e) == Failure(DefaultCaseHit(Complete, e))
  {
  }

  /** Some event leads from `a` to `b` in the table. */
  predicate Linked(a: SetupFlowState, b: SetupFlowState)
  {
    exists e :: Forward(a, e) == Some(b)
  }

  /** The history followed by the current screen is a walk through the table
      from `Start`. */
  predicate Walk(c: Config)
  {
    var path := c.stateHistory + [c.currentState];
    path[0] == Start && forall i :: 0 < i < |path| ==> Linked(path[i - 1], path[i])
  }

  /** The machine starts on a walk. */
  lemma StartIsWalk()
    ensures Walk(Config(Start, []))
  {
  }

  /** Every step keeps the machine on a walk. */
  lemma StepKeepsWalk(c: Config, e: SetupFlowEvent)
    requires Walk(c)
    ensures Step(c, e).Success? ==> Walk(Step(c, e).value)
  {
    var path := c.stateHistory + [c.currentState];
    if Step(c, e).Success? {
      var c' := Step(c, e).value;
      var path' := c'.stateHistory + [c'.currentState];
      if Forward(c.currentState, e).Some? {
        assert path' == path + [c'.currentState];
        forall i | 0 < i < |path'|
          ensures Linked(path'[i - 1], path'[i])
        {
          if i < |path| {
            assert path'[i - 1] == path[i - 1] && path'[i] == path[i];
          } else {
            assert Forward(path'[i - 1], e) == Some(path'[i]);
          }
        }
      } else if c.stateHistory != [] {
        assert path' == c.stateHistory;
        forall i | 0 < i < |path'|
          ensures Linked(path'[i - 1], path'[i])
        {
          assert path'[i - 1] == path[i - 1] && path'[i] == path[i];
        }
      }
    }
  }

  /** On a walk, `Complete` is never on the back-stack: it has no forward
      transition. */
  lemma WalkHistoryAvoidsComplete(c: Config, i: int)
    requires Walk(c) && 0 <= i < |c.stateHistory|
    ensures c.stateHistory[i] != Complete
  {
    var path := c.stateHistory + [c.currentState];
    assert path[i] == c.stateHistory[i];
    assert Linked(path[i], path[i + 1]);
  }

  class SetupFlowStateMachine {
    var currentState: SetupFlowState
    var stateHistory: seq<SetupFlowState>

    function State(): Config
      reads this
    {
      Config(currentState, stateHistory)
    }

    constructor ()
      ensures State() == Config(Start, [])
    {
      currentState := Start;
      stateHistory := [];
    }

    /** `transition(to:)`. */
    method Transition(newState: SetupFlowState)
      modifies this
      ensures State() == Config(newState, old(stateHistory) + [old(currentState)])
    {
      stateHistory := stateHistory + [currentState];
      currentState := newState;
    }

    /** `handleEvent`; a trap leaves the state as it was. */
    method HandleEvent(event: SetupFlowEvent) returns (trapped: bool)
      modifies this
      ensures trapped <==> Step(old(State()), event).Failure?
      ensures !trapped ==> State() == Step(old(State()), event).value
      ensures trapped ==> State() == old(State())
    {
      trapped := false;
      match (currentState, event)
      case (Start, OpenProject) => Transition(BrowsingProject);
      case (BrowsingProject, CancelSetup) => Transition(Start);
      case (BrowsingProject, FilePicked) => Transition(ProjectLoad);
      case (ProjectLoad, CancelSetup) => Transition(Start);
      case (ProjectLoad, AsyncJobFinished) => Transition(Complete);
      case (Start, NewProject) => Transition(ProjectInfo);
      case (ProjectInfo, ContinueSetup) => Transition(Complete);
      case (_, Back) =>
        if stateHistory != [] {
          var backState := stateHistory[|stateHistory| - 1];
          stateHistory := stateHistory[..|stateHistory| - 1];
          currentState := backState;
        }
      case _ =>
        trapped := true;
    }
  }
}
