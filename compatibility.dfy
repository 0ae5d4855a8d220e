/** The environment setters of the three algorithm families (algorithm/abstract.py): each
    family works with its own kind of state and refuses other environments with a
    TypeError when an algorithm is constructed, before any table exists. */
module Compatibility {
  import opened Wrappers
  import opened Environments

  datatype Family = ClassicFamily | CmacFamily | FuzzyFamily

  /** What the setters inspect: whether the environment is a grid environment, and
      otherwise which approximator it holds. */
  datatype EnvironmentView = GridView | ContinuousView(approximator: Option<Approximator>)

  /** `environment = value` for an algorithm of the given family. */
  function SetEnvironment(family: Family, env: EnvironmentView): (r: Result<()>)
    ensures r.Err? ==> r.error == TypeError
    ensures family == ClassicFamily ==>
              (r.Ok? <==> env.GridView? || (env.approximator.Some? && env.approximator.value.TableApx?))
    ensures family == CmacFamily ==>
              (r.Ok? <==> env.ContinuousView? && env.approximator.Some? && env.approximator.value.CmacApx?)
    ensures family == FuzzyFamily ==>
              (r.Ok? <==> env.ContinuousView? && env.approximator.Some? && env.approximator.value.FuzzyApx?)
  {
    match family
    case ClassicFamily =>
      if env.GridView? then Ok(())
      else if env.approximator.Some? && env.approximator.value.TableApx? then Ok(())
      else Err(TypeError)
    case CmacFamily =>
      if env.ContinuousView? && env.approximator.Some? && env.approximator.value.CmacApx? then Ok(())
      else Err(TypeError)
    case FuzzyFamily =>
      if env.ContinuousView? && env.approximator.Some? && env.approximator.value.FuzzyApx? then Ok(())
      else Err(TypeError)
  }

  /** The environment an algorithm family can learn on. */
  function FamilyFor(env: EnvironmentView): Option<Family> {
    if env.GridView? then Some(ClassicFamily)
    else match env.approximator
      case None => None
      case Some(TableApx(_)) => Some(ClassicFamily)
      case Some(CmacApx(_)) => Some(CmacFamily)
      case Some(FuzzyApx(_)) => Some(FuzzyFamily)
  }

  /** Every environment is accepted by at most one family, the one its state kind
      calls for; a continuous environment without an approximator by none. */
  lemma SetEnvironmentExclusive(family: Family, env: EnvironmentView)
    ensures SetEnvironment(family, env).Ok? <==> FamilyFor(env) == Some(family)
    ensures env.ContinuousView? && env.approximator.None? ==> SetEnvironment(family, env).Err?
  {
  }
}
