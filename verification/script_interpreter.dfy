/** The script-execution adapter `AbstractScriptInterpreter`: it binds inputs in
    the Jython session's local namespace, runs a script or evaluates an
    expression, and converts what comes back into serializable host values.

    The session is an immutable value here: every operation that changes the
    interpreter's locals returns the new session. A thrown Java exception is a
    `Failure` carrying a `ScriptError`. */
module ScriptInterpreter {
  import opened Wrappers
  import opened Strings
  import opened Python

  /** The interpreter session as far as the adapter can observe it: its locals. */
  datatype Session = Session(locals: Namespace)

  /** What an adapter call can throw.
      - `ConversionFailure`: the `RuntimeException` wrapping a Python `TypeError`
        raised by the coercion, with the prepared message and the original as cause.
      - `Raised`: a `PyException` propagated unchanged (from the script, the
        expression, or a coercion failure that is not a `TypeError`). */
  datatype ScriptError =
    | ConversionFailure(message: string, cause: PyException)
    | Raised(exc: PyException)

  // ---------------------------------------------------------------------------
  // Session state

  /** `cleanInterpreter`: the locals are replaced by a fresh empty namespace. */
  function CleanInterpreter(s: Session): (r: Session)
    ensures forall name :: GetValueFromContext(r, name) == None
  {
    Session(map[])
  }

  /** `getValueFromContext`: the local bound to `name`, or `None` (Java `null`)
      when there is none. */
  function GetValueFromContext(s: Session, name: string): (r: Option<PyVal>)
    ensures r.Some? <==> name in s.locals
  {
    if name in s.locals then Some(s.locals[name]) else None
  }

  /** `setValueInContext`: bind `name` to `value` in the locals. The host-to-Python
      coercion `interpreter.set` performs is not modelled: `value` is already a
      Python value. */
  function SetValueInContext(s: Session, name: string, value: PyVal): (r: Session)
    ensures r.locals.Keys == s.locals.Keys + {name}
  {
    Session(s.locals[name := value])
  }

  // ---------------------------------------------------------------------------
  // Which locals are user data

  /** The name follows the reserved `__name__` convention: it both starts and ends
      with a double underscore (the two tests may share characters). */
  predicate IsDunder(key: string) {
    StartsWith(key, "__") && EndsWith(key, "__")
  }

  /** The value is interpreter machinery rather than data. */
  predicate IsMachinery(v: PyVal) {
    v.File? || v.Module? || v.Function? || v.SystemState?
  }

  /** `keyIsExcluded`: the local is left out of `exec`'s result. */
  predicate KeyIsExcluded(key: string, value: PyVal) {
    IsDunder(key) || IsMachinery(value)
  }

  /** The names of the locals `exec` reports: every local that is not excluded. */
  function UserNames(ns: Namespace): set<string> {
    set k | k in ns && !KeyIsExcluded(k, ns[k])
  }

  // ---------------------------------------------------------------------------
  // Conversion to host values

  /** The value has a host counterpart: it is a boolean, or the generic coercion
      accepts it. */
  predicate Coerces(v: PyVal, eng: Engine) {
    v.Bool? || eng.tojava(v).Success?
  }

  /** The host counterpart of a coercible value: a boolean keeps its truth value,
      anything else is what the generic coercion produced. */
  function HostValueOf(v: PyVal, eng: Engine): HostVal
    requires Coerces(v, eng)
  {
    if v.Bool? then HostBool(v.truth) else eng.tojava(v).value
  }

  /** `resolveJythonObjectToJava`: convert one value, classifying coercion failures.
      The result succeeds exactly for coercible values, with their host
      counterpart; a thrown `ConversionFailure` is always a wrapped `TypeError`
      carrying `errorMessage`, and a propagated exception is always some other
      coercion failure. */
  function ResolveToJava(v: PyVal, errorMessage: string, eng: Engine): (r: Result<HostVal, ScriptError>)
    ensures r.Success? <==> Coerces(v, eng)
    ensures r.Success? ==> r.value == HostValueOf(v, eng)
    ensures r.Failure? && r.error.ConversionFailure? ==>
              && !v.Bool?
              && eng.tojava(v) == Failure(r.error.cause)
              && IsTypeError(r.error.cause)
              && r.error.message == errorMessage
    ensures r.Failure? && r.error.Raised? ==>
              && !v.Bool?
              && eng.tojava(v) == Failure(r.error.exc)
              && !IsTypeError(r.error.exc)
  {
    if v.Bool? then
      Success(HostBool(v.truth))
    else
      match eng.tojava(v)
      case Success(h) => Success(h)
      case Failure(e) =>
        if IsTypeError(e) then Failure(ConversionFailure(errorMessage, e)) else Failure(Raised(e))
  }

  /** Fixed text of `exec`'s conversion message, around the variable parts. The
      lead word of each message is a literal of its own: the verifier sees the
      characters of short literals only, and proofs need the first one. */
  const ExecIntro := "Non-serializable" + " values are not allowed in the output context of a Python script:"
                     + "\n\tConversion failed for '"
  const ExecHint := "),\n\tThe error can be solved by removing the variable from the context in the script: e.g. '"

  /** Fixed text of `eval`'s conversion message, around the variable parts. */
  const EvalIntro := "Evaluation" + " result for a Python expression should be serializable:"
                     + "\n\tConversion failed for '"

  /** The message `exec` prepares for local `key`, whose string form is `shown`:
      it names the variable, shows its value and suggests `del <key>`. */
  function ExecErrorMessage(key: string, shown: string): (m: string)
    ensures StartsWith(m, ExecIntro)
    ensures IsInfix(key, m)
    ensures IsInfix(shown, m)
    ensures IsInfix("del " + key, m)
  {
    SevenParts(ExecIntro, key, "' (", shown, ExecHint, "del " + key, "'.\n");
    ExecIntro + key + "' (" + shown + ExecHint + ("del " + key) + "'.\n"
  }

  /** The message `eval` prepares for `expression`, whose value's string form is
      `shown`: it names the expression and shows the value. */
  function EvalErrorMessage(expression: string, shown: string): (m: string)
    ensures StartsWith(m, EvalIntro)
    ensures IsInfix(expression, m)
    ensures IsInfix(shown, m)
  {
    FiveParts(EvalIntro, expression, "' (", shown, ").\n");
    EvalIntro + expression + "' (" + shown + ").\n"
  }

  /** The value converts in `exec` or `eval`: its string form for the error
      message can be computed, and it coerces. */
  predicate Converts(v: PyVal, eng: Engine) {
    eng.show(v).Success? && Coerces(v, eng)
  }

  /** `resolveJythonObjectToJavaExec`: the message, and with it the value's string
      form, is computed before anything is converted, so an exception from
      `String.valueOf` propagates first, even for a boolean. Otherwise the
      conversion succeeds exactly when the value coerces; a coercion `TypeError`
      is wrapped with the `exec` message and any other coercion exception
      propagates unchanged. */
  function ToJavaExec(v: PyVal, key: string, eng: Engine): (r: Result<HostVal, ScriptError>)
    ensures eng.show(v).Failure? ==> r == Failure(Raised(eng.show(v).error))
    ensures r.Success? <==> Converts(v, eng)
    ensures r.Success? ==> r.value == HostValueOf(v, eng)
    ensures r.Failure? && r.error.ConversionFailure? ==>
              && eng.show(v).Success?
              && !v.Bool?
              && eng.tojava(v) == Failure(r.error.cause)
              && IsTypeError(r.error.cause)
              && r.error.message == ExecErrorMessage(key, eng.show(v).value)
    ensures r.Failure? && r.error.Raised? && eng.show(v).Success? ==>
              && !v.Bool?
              && eng.tojava(v) == Failure(r.error.exc)
              && !IsTypeError(r.error.exc)
  {
    match eng.show(v)
    case Failure(e) => Failure(Raised(e))
    case Success(shown) => ResolveToJava(v, ExecErrorMessage(key, shown), eng)
  }

  /** `resolveJythonObjectToJavaEval`: as `ToJavaExec`, with the `eval` message. */
  function ToJavaEval(v: PyVal, expression: string, eng: Engine): (r: Result<HostVal, ScriptError>)
    ensures eng.show(v).Failure? ==> r == Failure(Raised(eng.show(v).error))
    ensures r.Success? <==> Converts(v, eng)
    ensures r.Success? ==> r.value == HostValueOf(v, eng)
    ensures r.Failure? && r.error.ConversionFailure? ==>
              && eng.show(v).Success?
              && !v.Bool?
              && eng.tojava(v) == Failure(r.error.cause)
              && IsTypeError(r.error.cause)
              && r.error.message == EvalErrorMessage(expression, eng.show(v).value)
    ensures r.Failure? && r.error.Raised? && eng.show(v).Success? ==>
              && !v.Bool?
              && eng.tojava(v) == Failure(r.error.exc)
              && !IsTypeError(r.error.exc)
  {
    match eng.show(v)
    case Failure(e) => Failure(Raised(e))
    case Success(shown) => ResolveToJava(v, EvalErrorMessage(expression, shown), eng)
  }

  // ---------------------------------------------------------------------------
  // exec and eval

  /** The loop of `exec` over a snapshot `names` of the locals, in iteration order:
      excluded locals are skipped, every other one is converted and put in the
      result, and the first conversion that throws (in computing the value's
      string form or in coercing it) aborts the whole harvest.
      On success the result holds exactly the non-excluded names, each with its
      host counterpart; a failure is always the failure of converting some
      non-excluded local, never of an excluded one. */
  function Harvest(ns: Namespace, names: seq<string>, eng: Engine): (r: Result<map<string, HostVal>, ScriptError>)
    requires forall k :: k in names ==> k in ns
    ensures r.Success? <==> forall k :: k in names && !KeyIsExcluded(k, ns[k]) ==> Converts(ns[k], eng)
    ensures r.Success? ==> forall k :: k in r.value <==> k in names && !KeyIsExcluded(k, ns[k])
    ensures r.Success? ==> forall k :: k in r.value ==> Converts(ns[k], eng) && r.value[k] == HostValueOf(ns[k], eng)
    ensures r.Failure? ==>
              exists k :: k in names && !KeyIsExcluded(k, ns[k]) && ToJavaExec(ns[k], k, eng) == Failure(r.error)
    decreases |names|
  {
    if names == [] then
      Success(map[])
    else
      var key := names[0];
      var value := ns[key];
      if KeyIsExcluded(key, value) then
        Harvest(ns, names[1..], eng)
      else
        match ToJavaExec(value, key, eng)
        case Failure(e) => Failure(e)
        case Success(h) =>
          match Harvest(ns, names[1..], eng)
          case Failure(e) => Failure(e)
          case Success(m) => Success(m[key := h])
  }

  /** `getLocals().asIterable()`: the names of the locals, each once, in an order
      the engine chooses (any order is possible here). */
  method SnapshotNames(ns: Namespace) returns (names: seq<string>)
    ensures forall k :: k in names <==> k in ns
    ensures forall i, j :: 0 <= i < j < |names| ==> names[i] != names[j]
  {
    names := [];
    var rest := ns.Keys;
    while rest != {}
      invariant rest <= ns.Keys
      invariant forall k :: k in names <==> k in ns && k !in rest
      invariant forall i, j :: 0 <= i < j < |names| ==> names[i] != names[j]
      decreases rest
    {
      var k :| k in rest;
      names := names + [k];
      rest := rest - {k};
    }
  }

  /** `exec`: run the script, then harvest the locals it leaves behind.
      The session keeps whatever the script did to the locals, even when the call
      fails. An exception from the script propagates unchanged. Otherwise the
      call succeeds exactly when every non-excluded local converts, and then
      returns those locals and no others, each converted; when it fails, the error
      is the conversion failure of some non-excluded local, and no map at all is
      returned. */
  method Exec(s: Session, script: string, eng: Engine) returns (s': Session, r: Result<map<string, HostVal>, ScriptError>)
    ensures s'.locals == eng.run(s.locals, script).0
    ensures eng.run(s.locals, script).1.Some? ==> r == Failure(Raised(eng.run(s.locals, script).1.value))
    ensures eng.run(s.locals, script).1.None? ==>
              (r.Success? <==> forall k :: k in UserNames(s'.locals) ==> Converts(s'.locals[k], eng))
    ensures r.Success? ==>
              && r.value.Keys == UserNames(s'.locals)
              && forall k :: k in r.value ==> r.value[k] == HostValueOf(s'.locals[k], eng)
    ensures eng.run(s.locals, script).1.None? && r.Failure? ==>
              exists k :: k in UserNames(s'.locals) && ToJavaExec(s'.locals[k], k, eng) == Failure(r.error)
  {
    var (ns, raised) := eng.run(s.locals, script);
    s' := Session(ns);
    if raised.Some? {
      return s', Failure(Raised(raised.value));
    }
    var names := SnapshotNames(ns);
    r := Harvest(ns, names, eng);
  }

  /** `eval`: evaluate the expression and convert its single value. An exception
      from the evaluation propagates unchanged, and so does one from computing the
      value's string form. Otherwise the result is the value's host counterpart
      when it coerces; a coercion `TypeError` is wrapped with the `eval` message
      naming the expression, and any other coercion exception propagates
      unchanged. */
  function Eval(s: Session, expression: string, eng: Engine): (r: Result<HostVal, ScriptError>)
    ensures eng.evaluate(s.locals, expression).Failure? ==>
              r == Failure(Raised(eng.evaluate(s.locals, expression).error))
    ensures eng.evaluate(s.locals, expression).Success? ==>
              var v := eng.evaluate(s.locals, expression).value;
              && (eng.show(v).Failure? ==> r == Failure(Raised(eng.show(v).error)))
              && (r.Success? <==> Converts(v, eng))
              && (r.Success? ==> r.value == HostValueOf(v, eng))
              && (r.Failure? && r.error.ConversionFailure? ==>
                    && eng.show(v).Success?
                    && !v.Bool?
                    && eng.tojava(v) == Failure(r.error.cause)
                    && IsTypeError(r.error.cause)
                    && r.error.message == EvalErrorMessage(expression, eng.show(v).value))
              && (r.Failure? && r.error.Raised? && eng.show(v).Success? ==>
                    && !v.Bool?
                    && eng.tojava(v) == Failure(r.error.exc)
                    && !IsTypeError(r.error.exc))
  {
    match eng.evaluate(s.locals, expression)
    case Failure(e) => Failure(Raised(e))
    case Success(v) => ToJavaEval(v, expression, eng)
  }
}
