/** Properties of the adapter that relate several calls or quantify over every
    engine: what the exclusion rule means character by character, that the
    coercion is never consulted where the adapter decides by itself, and that
    the harvest of `exec` does not depend on iteration order or on excluded
    locals. */
module ScriptInterpreterProperties {
  import opened Wrappers
  import opened Strings
  import opened Python
  import opened ScriptInterpreter

  // ---------------------------------------------------------------------------
  // Session state

  /** Binding a name and reading it back gives the bound value; every other name
      reads as before. */
  lemma GetAfterSet(s: Session, name: string, value: PyVal, other: string)
    ensures GetValueFromContext(SetValueInContext(s, name, value), name) == Some(value)
    ensures other != name ==>
              GetValueFromContext(SetValueInContext(s, name, value), other) == GetValueFromContext(s, other)
  {
  }

  /** Whatever was bound before `cleanInterpreter`, nothing is visible after it. */
  lemma CleanForgetsBindings(s: Session, name: string, value: PyVal)
    ensures GetValueFromContext(CleanInterpreter(SetValueInContext(s, name, value)), name) == None
  {
  }

  // ---------------------------------------------------------------------------
  // The exclusion rule

  /** A local is excluded exactly when its name has at least two characters, the
      first two and the last two of which are underscores, or its value is a file,
      a module, a function or the system state. No other name or kind of value is
      excluded. */
  lemma ExclusionByCharacters(key: string, value: PyVal)
    ensures KeyIsExcluded(key, value) <==>
              || (&& |key| >= 2
                  && key[0] == '_' && key[1] == '_'
                  && key[|key| - 2] == '_' && key[|key| - 1] == '_')
              || value.File? || value.Module? || value.Function? || value.SystemState?
  {
    if |key| >= 2 && key[0] == '_' && key[1] == '_' && key[|key| - 2] == '_' && key[|key| - 1] == '_' {
      assert key[..2] == "__";
      assert key[|key| - 2..] == "__";
    }
  }

  /** The prefix and suffix tests may share characters, so `__` and `___` are
      excluded by their name alone; names with a double underscore on one side
      only are not. */
  lemma ShortNamesExcluded(value: PyVal)
    ensures KeyIsExcluded("__", value)
    ensures KeyIsExcluded("___", value)
    ensures KeyIsExcluded("__name__", value)
    ensures !IsDunder("_")
    ensures !IsDunder("__x")
    ensures !IsDunder("x__")
  {
    ExclusionByCharacters("__", value);
    ExclusionByCharacters("___", value);
    ExclusionByCharacters("__name__", value);
    ExclusionByCharacters("_", Other(0));
    ExclusionByCharacters("__x", Other(0));
    ExclusionByCharacters("x__", Other(0));
  }

  // ---------------------------------------------------------------------------
  // Conversion

  /** A boolean converts to the host boolean with the same truth value, whatever
      the engine's generic coercion would have done with it: the coercion is
      never consulted. In `exec` and `eval` the only other thing that can happen
      to a boolean is that computing its string form for the message raises. */
  lemma BoolNeverConsultsCoercion(b: bool, message: string, key: string, expression: string, eng1: Engine, eng2: Engine)
    ensures ResolveToJava(Bool(b), message, eng1) == Success(HostBool(b))
    ensures ResolveToJava(Bool(b), message, eng1) == ResolveToJava(Bool(b), message, eng2)
    ensures eng1.show(Bool(b)).Success? ==>
              && ToJavaExec(Bool(b), key, eng1) == Success(HostBool(b))
              && ToJavaEval(Bool(b), expression, eng1) == Success(HostBool(b))
  {
  }

  /** The prepared message only ever shows up in a wrapped `TypeError`: with two
      different messages the outcome is the same, or both are conversion failures
      with the same cause. */
  lemma MessageOnlyInConversionFailure(v: PyVal, m1: string, m2: string, eng: Engine)
    ensures || ResolveToJava(v, m1, eng) == ResolveToJava(v, m2, eng)
            || (&& ResolveToJava(v, m1, eng).Failure? && ResolveToJava(v, m1, eng).error.ConversionFailure?
                && ResolveToJava(v, m2, eng) == Failure(ConversionFailure(m2, ResolveToJava(v, m1, eng).error.cause)))
  {
  }

  /** `exec`'s and `eval`'s conversion messages can never be mistaken for one
      another: they differ in their first character. */
  lemma ExecAndEvalMessagesDiffer(key: string, shown1: string, expression: string, shown2: string)
    ensures ExecErrorMessage(key, shown1) != EvalErrorMessage(expression, shown2)
  {
    var m1 := ExecErrorMessage(key, shown1);
    var m2 := EvalErrorMessage(expression, shown2);
    assert ExecIntro[0] == 'N';
    assert EvalIntro[0] == 'E';
    assert m1[0] == m1[..|ExecIntro|][0] == ExecIntro[0];
    assert m2[0] == m2[..|EvalIntro|][0] == EvalIntro[0];
  }

  /** `exec` and `eval` share one conversion algorithm: for the same value they
      succeed alike with the same host value, propagate the same exception, or
      both wrap the same `TypeError`; only the wrapped message differs. */
  lemma ExecAndEvalConvertAlike(v: PyVal, key: string, expression: string, eng: Engine)
    ensures ToJavaExec(v, key, eng).Success? ==> ToJavaEval(v, expression, eng) == ToJavaExec(v, key, eng)
    ensures ToJavaExec(v, key, eng).Failure? && ToJavaExec(v, key, eng).error.Raised? ==>
              ToJavaEval(v, expression, eng) == ToJavaExec(v, key, eng)
    ensures ToJavaExec(v, key, eng).Failure? && ToJavaExec(v, key, eng).error.ConversionFailure? ==>
              && ToJavaEval(v, expression, eng).Failure?
              && ToJavaEval(v, expression, eng).error.ConversionFailure?
              && ToJavaEval(v, expression, eng).error.cause == ToJavaExec(v, key, eng).error.cause
  {
  }

  /** An expression that evaluates to a Python boolean, say `True and False`,
      yields the host boolean with the same truth value, never a number. */
  lemma EvalBooleanResult(s: Session, expression: string, eng: Engine, b: bool)
    requires eng.evaluate(s.locals, expression) == Success(Bool(b))
    requires eng.show(Bool(b)).Success?
    ensures Eval(s, expression, eng) == Success(HostBool(b))
  {
  }

  // ---------------------------------------------------------------------------
  // Harvest

  /** The harvest reads only the locals it iterates over: two namespaces that agree
      on those names give the same outcome. */
  lemma {:induction false} HarvestFrame(ns1: Namespace, ns2: Namespace, names: seq<string>, eng: Engine)
    requires forall k :: k in names ==> k in ns1 && k in ns2 && ns1[k] == ns2[k]
    ensures Harvest(ns1, names, eng) == Harvest(ns2, names, eng)
    decreases |names|
  {
    if names != [] {
      HarvestFrame(ns1, ns2, names[1..], eng);
    }
  }

  /** A script that additionally binds an excluded local (a module it imported, a
      function it defined, a `__dunder__` name) leaves the outcome of `exec`
      exactly as it was, error included. */
  lemma ExcludedBindingChangesNothing(ns: Namespace, names: seq<string>, key: string, value: PyVal, eng: Engine)
    requires forall k :: k in names ==> k in ns
    requires key !in names
    requires KeyIsExcluded(key, value)
    ensures Harvest(ns[key := value], [key] + names, eng) == Harvest(ns, names, eng)
  {
    assert ([key] + names)[1..] == names;
    HarvestFrame(ns[key := value], ns, names, eng);
  }

  /** Excluded locals are never handed to the coercion, and their string form is
      never computed: two engines that convert and show every non-excluded local
      alike give the same outcome, whatever they do with the excluded ones. */
  lemma {:induction false} ExcludedNeverConverted(ns: Namespace, names: seq<string>, eng1: Engine, eng2: Engine)
    requires forall k :: k in names ==> k in ns
    requires forall k :: k in names && !KeyIsExcluded(k, ns[k]) ==>
               eng1.tojava(ns[k]) == eng2.tojava(ns[k]) && eng1.show(ns[k]) == eng2.show(ns[k])
    ensures Harvest(ns, names, eng1) == Harvest(ns, names, eng2)
    decreases |names|
  {
    if names != [] {
      ExcludedNeverConverted(ns, names[1..], eng1, eng2);
    }
  }

  /** Iteration order decides at most which failure is reported: two snapshots of
      the same names either both succeed with the same map or both fail. */
  lemma HarvestOrderIrrelevant(ns: Namespace, a: seq<string>, b: seq<string>, eng: Engine)
    requires forall k :: k in a ==> k in ns
    requires forall k :: k in a <==> k in b
    ensures Harvest(ns, a, eng).Success? == Harvest(ns, b, eng).Success?
    ensures Harvest(ns, a, eng).Success? ==> Harvest(ns, a, eng) == Harvest(ns, b, eng)
  {
    var ra := Harvest(ns, a, eng);
    var rb := Harvest(ns, b, eng);
    if ra.Success? {
      forall k | k in ra.value
        ensures k in rb.value && rb.value[k] == ra.value[k]
      {
      }
      forall k | k in rb.value
        ensures k in ra.value
      {
      }
      assert ra.value == rb.value;
    }
  }

  // ---------------------------------------------------------------------------
  // exec on a fresh session

  /** `cleanInterpreter` followed by `exec` of a script that binds nothing but
      excluded locals (say, only `import os`) on an empty namespace returns an
      empty map: nothing bound before the reset leaks into the result. */
  method ExecAfterClean(s: Session, script: string, eng: Engine) returns (s': Session, r: Result<map<string, HostVal>, ScriptError>)
    requires eng.run(map[], script).1 == None
    requires forall k :: k in eng.run(map[], script).0 ==> KeyIsExcluded(k, eng.run(map[], script).0[k])
    ensures r == Success(map[])
  {
    var cleaned := CleanInterpreter(s);
    s', r := Exec(cleaned, script, eng);
    assert UserNames(s'.locals) == {};
  }
}
