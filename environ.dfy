/**
  The process environment (`os.environ`) and the `env_var(key, value)` context
  manager of buildmatrix/cli.py. The context manager is a generator without
  `try`/`finally`: entering it saves the old value and sets the new one; leaving
  it normally restores the old value only when that value was truthy (present
  and non-empty) and deletes the key otherwise; leaving it by an exception skips
  the restoration, so the new value stays set.
 */
module Environ {
  import opened Wrappers

  /** `os.environ.get(key)`. */
  function Lookup(vars: map<string, string>, key: string): (r: Option<string>)
    ensures r.Some? <==> key in vars
    ensures r.Some? ==> r.value == vars[key]
  {
    if key in vars then Some(vars[key]) else None
  }

  /** Python truthiness of `os.environ.get(key)`: `None` and `''` are false. */
  predicate Truthy(saved: Option<string>)
  {
    saved.Some? && saved.value != ""
  }

  /** The environment after the code that follows `yield` in `env_var`. */
  function Restored(vars: map<string, string>, key: string, saved: Option<string>): map<string, string>
  {
    if Truthy(saved) then vars[key := saved.value] else vars - {key}
  }

  /** The environment after a `with env_var(key, value):` block whose body returned normally. */
  function AfterScope(vars: map<string, string>, key: string, value: string): map<string, string>
  {
    Restored(vars[key := value], key, Lookup(vars, key))
  }

  /** The environment after a `with env_var(key, value):` block whose body raised. */
  function AfterRaisingScope(vars: map<string, string>, key: string, value: string): map<string, string>
  {
    vars[key := value]
  }

  /**
    A normally-ended block gives back the environment it started from exactly when
    the key was absent or held a non-empty value; an empty old value is deleted.
   */
  lemma AfterScopeRestores(vars: map<string, string>, key: string, value: string)
    ensures AfterScope(vars, key, value) == vars <==> (key !in vars || vars[key] != "")
    ensures key in vars && vars[key] == "" ==> AfterScope(vars, key, value) == vars - {key}
    ensures forall k :: k != key ==> Lookup(AfterScope(vars, key, value), k) == Lookup(vars, k)
  {
    if key in vars && vars[key] == "" {
      assert key !in AfterScope(vars, key, value);
    } else if key in vars {
      assert AfterScope(vars, key, value) == vars;
    } else {
      assert AfterScope(vars, key, value) == vars;
    }
  }

  /** `os.environ`, which the planner changes in place. */
  class Environment {
    var vars: map<string, string>

    constructor (initial: map<string, string>)
      ensures vars == initial
    {
      vars := initial;
    }

    /** Entering `env_var(key, value)`: save `os.environ.get(key)`, then set the key. */
    method Enter(key: string, value: string) returns (saved: Option<string>)
      modifies this
      ensures saved == Lookup(old(vars), key)
      ensures vars == old(vars)[key := value]
    {
      saved := if key in vars then Some(vars[key]) else None;
      vars := vars[key := value];
    }

    /**
      Leaving `env_var` normally: put back a truthy saved value, otherwise
      `del os.environ[key]`, which needs the key to be present.
     */
    method Leave(key: string, saved: Option<string>)
      requires Truthy(saved) || key in vars
      modifies this
      ensures vars == Restored(old(vars), key, saved)
    {
      if saved.Some? && saved.value != "" {
        vars := vars[key := saved.value];
      } else {
        vars := vars - {key};
      }
    }
  }

}
