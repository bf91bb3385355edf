/**
 * The tutorial progress reducer: which tutorial is running, the step shown,
 * and the names of the tutorials already completed.
 */
module Tutorial {
  import opened Wrappers

  /** `activeTutorial` (null is `None`), `currentStep`, `completedTutorials`. */
  datatype TutorialState = TutorialState(active: Option<string>, step: int, completed: seq<string>)

  /** The state a provider starts in, before anything is restored. */
  const Initial: TutorialState := TutorialState(None, 0, [])

  predicate NoDuplicates(s: seq<string>)
  {
    forall i, j :: 0 <= i < j < |s| ==> s[i] != s[j]
  }

  /** The reducer's invariant: the step is never negative and no tutorial is recorded twice. */
  predicate Valid(t: TutorialState)
  {
    t.step >= 0 && NoDuplicates(t.completed)
  }

  /** JavaScript truthiness of the active tutorial: present and not the empty string. */
  predicate Running(t: TutorialState)
  {
    t.active.Some? && t.active.value != ""
  }

  /** `isTutorialCompleted`. */
  predicate IsTutorialCompleted(t: TutorialState, name: string)
  {
    name in t.completed
  }

  /** `startTutorial`: the named tutorial becomes active at its first step. */
  function StartTutorial(t: TutorialState, name: string): (r: TutorialState)
    ensures r.active == Some(name) && r.step == 0 && r.completed == t.completed
    ensures Valid(t) ==> Valid(r)
  {
    t.(active := Some(name), step := 0)
  }

  /** `nextStep`: exactly one step forward, nothing else changes. */
  function NextStep(t: TutorialState): (r: TutorialState)
    ensures r.step == t.step + 1 && r.active == t.active && r.completed == t.completed
    ensures Valid(t) ==> Valid(r)
  {
    t.(step := t.step + 1)
  }

  /** `prevStep`: one step back, but never below the first step. */
  function PrevStep(t: TutorialState): (r: TutorialState)
    ensures r.step >= 0
    ensures t.step > 0 ==> r.step == t.step - 1
    ensures t.step <= 0 ==> r.step == 0
    ensures r.active == t.active && r.completed == t.completed
    ensures Valid(t) ==> Valid(r)
  {
    t.(step := if t.step - 1 > 0 then t.step - 1 else 0)
  }

  /** `skipTutorial`: no tutorial is active and the step is reset; the completed list is kept. */
  function SkipTutorial(t: TutorialState): (r: TutorialState)
    ensures r.active.None? && r.step == 0 && r.completed == t.completed
    ensures Valid(t) ==> Valid(r)
  {
    TutorialState(None, 0, t.completed)
  }

  /**
   * `completeTutorial`: a running tutorial not yet recorded is appended to
   * the completed list; in every case the active tutorial is cleared and
   * the step reset.
   */
  function CompleteTutorial(t: TutorialState): (r: TutorialState)
    ensures r.active.None? && r.step == 0
    ensures forall name :: IsTutorialCompleted(r, name) <==>
      IsTutorialCompleted(t, name) || (Running(t) && t.active == Some(name))
    ensures t.completed <= r.completed && |r.completed| <= |t.completed| + 1
    ensures !Running(t) ==> r.completed == t.completed
    ensures Valid(t) ==> Valid(r)
  {
    var completed :=
      if Running(t) && t.active.value !in t.completed then t.completed + [t.active.value] else t.completed;
    TutorialState(None, 0, completed)
  }

  /** `resetTutorials`: nothing is recorded as completed; the running tutorial and step stay. */
  function ResetTutorials(t: TutorialState): (r: TutorialState)
    ensures forall name :: !IsTutorialCompleted(r, name)
    ensures r.active == t.active && r.step == t.step
    ensures Valid(t) ==> Valid(r)
  {
    t.(completed := [])
  }

  /** Going forward and then back returns to the same state. */
  lemma PrevUndoesNext(t: TutorialState)
    requires Valid(t)
    ensures PrevStep(NextStep(t)) == t
  {
  }

  /** Going back and then forward returns to the same state unless the first step was already shown. */
  lemma NextUndoesPrev(t: TutorialState)
    requires t.step > 0
    ensures NextStep(PrevStep(t)) == t
  {
  }

  /** Completing twice records the tutorial once. */
  lemma CompleteIsIdempotent(t: TutorialState)
    ensures CompleteTutorial(CompleteTutorial(t)) == CompleteTutorial(t)
  {
  }

  /** Starting and completing a tutorial records it, exactly once, whatever came before. */
  lemma StartThenCompleteRecords(t: TutorialState, name: string)
    requires Valid(t) && name != ""
    ensures var r := CompleteTutorial(StartTutorial(t, name));
      && IsTutorialCompleted(r, name)
      && Valid(r)
      && (name in t.completed ==> r.completed == t.completed)
      && (name !in t.completed ==> r.completed == t.completed + [name])
  {
  }

  /** A tutorial started with an empty name is never recorded. */
  lemma EmptyNameIsNeverRecorded(t: TutorialState)
    ensures CompleteTutorial(StartTutorial(t, "")).completed == t.completed
  {
  }

  /** The reducer's actions, as the context exposes them. */
  datatype Action = Start(name: string) | Next | Prev | Skip | Complete | Reset

  function Step(t: TutorialState, a: Action): TutorialState
  {
    match a
    case Start(name) => StartTutorial(t, name)
    case Next => NextStep(t)
    case Prev => PrevStep(t)
    case Skip => SkipTutorial(t)
    case Complete => CompleteTutorial(t)
    case Reset => ResetTutorials(t)
  }

  /** The state after a sequence of actions from `t`, applied in order. */
  function Run(t: TutorialState, actions: seq<Action>): (r: TutorialState)
    ensures Valid(t) ==> Valid(r)
    decreases |actions|
  {
    if |actions| == 0 then t else Run(Step(t, actions[0]), actions[1..])
  }

  /** Every state reachable from the initial state by the reducer's actions is valid. */
  lemma ReachableStatesAreValid(actions: seq<Action>)
    ensures Valid(Run(Initial, actions))
    ensures Run(Initial, actions).step >= 0
  {
  }
}
