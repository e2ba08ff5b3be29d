/** `Provider.Get` under any number of concurrent callers: `sync.Once` around validation
    and the factory. */
module Provider {
  import opened Wrappers

  type Caller = nat

  /** What the provider holds: nothing yet, or the stored instance and error, as `Get`
      returns them. */
  datatype Outcome<T> = Unset | Stored(instance: Option<T>, error: Option<int>)

  /** Who is inside `once.Do`, and how far. */
  datatype Once = Idle | Validating(c: Caller) | Building(c: Caller) | Finished

  datatype State<T> = State(
    once: Once,
    outcome: Outcome<T>,
    waiting: set<Caller>,               // inside Get, not in the critical section
    returned: map<Caller, Outcome<T>>,  // what each call of Get returned
    validations: nat,
    factories: nat,
    validated: bool)                    // validation has succeeded

  datatype Step<T> =
    | Call(c: Caller)
    | Enter(c: Caller)                  // once.Do runs the function
    | Validated(error: Option<int>)     // cfg.Validate returned
    | Built(result: Outcome<T>)         // factory returned
    | Return(c: Caller)                 // once.Do is past for this caller

  function Init<T>(): State<T>
  {
    State(Idle, Unset, {}, map[], 0, 0, false)
  }

  predicate Enabled<T>(s: State<T>, step: Step<T>)
  {
    match step
    case Call(c) =>
      c !in s.waiting && c !in s.returned && s.once != Validating(c) && s.once != Building(c)
    case Enter(c) => c in s.waiting && s.once.Idle?
    case Validated(_) => s.once.Validating?
    case Built(result) => s.once.Building? && !result.Unset?
    case Return(c) => c in s.waiting && s.once.Finished?
  }

  function Apply<T>(s: State<T>, step: Step<T>): State<T>
    requires Enabled(s, step)
  {
    match step
    case Call(c) => s.(waiting := s.waiting + {c})
    case Enter(c) => s.(once := Validating(c), waiting := s.waiting - {c}, validations := s.validations + 1)
    case Validated(error) =>
      if error.Some?
      then s.(once := Finished, outcome := Stored(None, error), waiting := s.waiting + {s.once.c})
      else s.(once := Building(s.once.c), validated := true, factories := s.factories + 1)
    case Built(result) => s.(once := Finished, outcome := result, waiting := s.waiting + {s.once.c})
    case Return(c) => s.(waiting := s.waiting - {c}, returned := s.returned[c := s.outcome])
  }

  function Run<T>(start: State<T>, steps: seq<Step<T>>): Option<State<T>>
  {
    if steps == [] then Some(start)
    else
      match Run(start, steps[..|steps| - 1])
      case None => None
      case Some(s) => if Enabled(s, steps[|steps| - 1]) then Some(Apply(s, steps[|steps| - 1])) else None
  }

  ghost predicate Ok<T>(s: State<T>)
  {
    && s.validations == (if s.once.Idle? then 0 else 1)
    && s.factories == (if s.validated then 1 else 0)
    && (s.once.Idle? || s.once.Validating? ==> !s.validated)
    && (s.once.Building? ==> s.validated)
    && (s.outcome.Unset? <==> !s.once.Finished?)
    && (s.once.Finished? && !s.validated ==> s.outcome.instance.None? && s.outcome.error.Some?)
    && (forall c :: c in s.returned ==> s.once.Finished? && s.returned[c] == s.outcome)
  }

  /** Over any run the configuration is validated at most once; the factory is called at
      most once, and only after validation succeeded; and every caller that has returned got
      the one stored outcome. */
  lemma {:induction false} GetOnce<T>(steps: seq<Step<T>>, s: State<T>)
    requires Run(Init(), steps) == Some(s)
    ensures s.validations <= 1 && s.factories <= 1 && (s.factories == 1 <==> s.validated)
    ensures forall c, d :: c in s.returned && d in s.returned ==> s.returned[c] == s.returned[d]
    ensures forall c :: c in s.returned ==> !s.returned[c].Unset? && (s.returned[c].error.None? ==> s.validated)
    ensures Ok(s)
  {
    if steps != [] {
      GetOnce(steps[..|steps| - 1], Run(Init(), steps[..|steps| - 1]).value);
    }
  }

  /** Once some caller has returned, the outcome stays what it got, for ever after. */
  lemma {:induction false} OutcomeStays<T>(start: State<T>, steps: seq<Step<T>>, s: State<T>)
    requires Ok(start) && start.once.Finished? && Run(start, steps) == Some(s)
    ensures s.once.Finished? && s.outcome == start.outcome
    ensures s.validations == start.validations && s.factories == start.factories
  {
    if steps != [] {
      OutcomeStays(start, steps[..|steps| - 1], Run(start, steps[..|steps| - 1]).value);
    }
  }

  /** The step that settles the outcome: validation failed, or the factory returned. */
  predicate Settles<T>(step: Step<T>)
  {
    step.Built? || (step.Validated? && step.error.Some?)
  }

  /** What that step brought. */
  function Brought<T>(step: Step<T>): Outcome<T>
    requires Settles(step)
  {
    match step
    case Built(result) => result
    case Validated(error) => Stored(None, error)
  }

  /** The stored outcome is the error of the failing validation, or else whatever the factory
      returned, instance and error; exactly one step of a run brings it. */
  lemma {:induction false} OutcomeIsBrought<T>(steps: seq<Step<T>>, s: State<T>)
    requires Run(Init(), steps) == Some(s)
    ensures s.outcome.Unset? <==> forall i :: 0 <= i < |steps| ==> !Settles(steps[i])
    ensures forall i :: 0 <= i < |steps| && Settles(steps[i]) ==> s.outcome == Brought(steps[i])
    ensures forall i, j :: 0 <= i < j < |steps| && Settles(steps[i]) ==> !Settles(steps[j])
  {
    if steps != [] {
      var n := |steps| - 1;
      var before := Run(Init(), steps[..n]).value;
      GetOnce(steps[..n], before);
      OutcomeIsBrought(steps[..n], before);
      assert forall i :: 0 <= i < n ==> steps[..n][i] == steps[i];
    }
  }

  lemma Next<T>(start: State<T>, steps: seq<Step<T>>, s: State<T>, step: Step<T>)
      returns (steps': seq<Step<T>>, s': State<T>)
    requires Run(start, steps) == Some(s) && Enabled(s, step)
    ensures s' == Apply(s, step) && Run(start, steps') == Some(s')
  {
    steps', s' := steps + [step], Apply(s, step);
    assert steps'[..|steps'| - 1] == steps;
  }

  /** One provider object, between calls: `once` says whether `once.Do` has run. */
  class Lazy<T> {
    var once: bool
    var instance: Option<T>
    var err: Option<int>
    ghost var validations: nat
    ghost var factories: nat

    /** The object is in this state of the machine, with nobody inside `Get`. */
    ghost predicate Shows(s: State<T>)
      reads this
    {
      && s.once == (if once then Finished else Idle) && s.waiting == {}
      && s.outcome == (if once then Stored(instance, err) else Unset)
      && (!once ==> instance == None && err == None)
      && s.validations == validations && s.factories == factories
    }

    constructor ()
      ensures Shows(Init())
    {
      once, instance, err := false, None, None;
      validations, factories := 0, 0;
    }

    /** `Get` by one caller: a run of the machine in which that caller alone moves. What
        validation and the factory return is arbitrary. */
    method Get(c: Caller, ghost s: State<T>) returns (result: Outcome<T>, ghost steps: seq<Step<T>>, ghost s': State<T>)
      requires Shows(s) && c !in s.returned
      modifies this
      ensures Run(s, steps) == Some(s') && Shows(s')
      ensures s'.returned == s.returned[c := result]
      ensures result == Stored(instance, err)
      ensures old(once) ==> instance == old(instance) && err == old(err)
    {
      steps, s' := [], s;
      steps, s' := Next(s, steps, s', Call(c));
      if !once {
        once := true;
        validations := validations + 1;
        steps, s' := Next(s, steps, s', Enter(c));
        var error: Option<int> := *;
        steps, s' := Next(s, steps, s', Validated(error));
        if error.Some? {
          err := error;
        } else {
          instance, err := *, *;
          factories := factories + 1;
          steps, s' := Next(s, steps, s', Built(Stored(instance, err)));
        }
      }
      steps, s' := Next(s, steps, s', Return(c));
      result := Stored(instance, err);
    }
  }
}
