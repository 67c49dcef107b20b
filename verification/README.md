# Script execution adapter of the CloudSlang runtime

A Dafny model of `AbstractScriptInterpreter`, the class through which the
CloudSlang runtime runs Python snippets in an embedded Jython interpreter. The
adapter binds inputs in the interpreter's local namespace, runs a script
(`exec`) or evaluates an expression (`eval`), and converts what comes back
into `java.io.Serializable` host values. The model covers its decisions:

- which locals are user data (`keyIsExcluded`: a `__dunder__` name, or a file,
  module, function or system-state value, is skipped);
- the harvest loop of `exec`, which converts every other local and aborts the
  whole call on the first conversion that throws, so no partial map escapes;
- the conversion dispatch: a Python boolean becomes a host boolean without
  consulting the generic coercion; a coercion that throws a Python `TypeError`
  is wrapped in a conversion failure carrying a prepared message; any other
  Python exception propagates unchanged;
- the two message templates, for `exec` (naming the variable and suggesting
  `del <name>`) and for `eval` (naming the expression); each is built, with the
  value's string form, before the value is converted, so an exception raised
  while computing that string form propagates unchanged, even for a boolean.

The Jython engine is an opaque capability (`Python.Engine`): running a script,
evaluating an expression, `Py.tojava` and `String.valueOf` are arbitrary total
functions, so every property holds for every engine. The session is an
immutable value; operations that change the locals return the new session.

Files: `wrappers.dfy` (Option/Result), `strings.dfy` (`startsWith`,
`endsWith`, `contains`), `python.dfy` (interpreter values, exceptions, host
values, the engine), `script_interpreter.dfy` (the adapter),
`properties.dfy` (properties relating several calls or several engines).

The reserved-name test is `startsWith("__") && endsWith("__")`; its two halves
may overlap, so `__` and `___` are excluded.

## Model

| member | source | states |
|---|---|---|
| ScriptInterpreter.CleanInterpreter | cloudslang-runtime/src/main/java/io/cloudslang/lang/runtime/bindings/scripts/AbstractScriptInterpreter.java:33-35 | after the reset no name has a value in the session |
| ScriptInterpreter.GetValueFromContext | cloudslang-runtime/src/main/java/io/cloudslang/lang/runtime/bindings/scripts/AbstractScriptInterpreter.java:37-39 | a value is returned exactly when the name is bound; otherwise the result is null (`None`) |
| ScriptInterpreter.SetValueInContext | cloudslang-runtime/src/main/java/io/cloudslang/lang/runtime/bindings/scripts/AbstractScriptInterpreter.java:41-43 | binding a name adds exactly that name to the bound names |
| ScriptInterpreterProperties.GetAfterSet | cloudslang-runtime/src/main/java/io/cloudslang/lang/runtime/bindings/scripts/AbstractScriptInterpreter.java:37-43 | reading a name just bound returns the bound value, and every other name reads as before |
| ScriptInterpreterProperties.CleanForgetsBindings | cloudslang-runtime/src/main/java/io/cloudslang/lang/runtime/bindings/scripts/AbstractScriptInterpreter.java:33-39 | a binding made before the reset is not visible after it |
| ScriptInterpreterProperties.ExclusionByCharacters | cloudslang-runtime/src/main/java/io/cloudslang/lang/runtime/bindings/scripts/AbstractScriptInterpreter.java:108-114 | a local is excluded exactly when its name is at least two characters long with underscores as its first two and last two characters, or its value is a file, module, function or system state; nothing else is excluded |
| ScriptInterpreterProperties.ShortNamesExcluded | cloudslang-runtime/src/main/java/io/cloudslang/lang/runtime/bindings/scripts/AbstractScriptInterpreter.java:109 | `__`, `___` and `__name__` are excluded by the name alone for any value; `_`, `__x` and `x__` are not reserved names |
| ScriptInterpreter.ResolveToJava | cloudslang-runtime/src/main/java/io/cloudslang/lang/runtime/bindings/scripts/AbstractScriptInterpreter.java:87-106 | the conversion succeeds exactly for booleans and values the coercion accepts, with the boolean's truth value or the coercion's result; a conversion failure always wraps a `TypeError` raised by the coercion as its cause and carries the prepared message; a propagated exception is always one the coercion raised that is not a `TypeError` |
| ScriptInterpreterProperties.BoolNeverConsultsCoercion | cloudslang-runtime/src/main/java/io/cloudslang/lang/runtime/bindings/scripts/AbstractScriptInterpreter.java:88-90 | a boolean converts to the host boolean with the same truth value, identically under any two engines, so the coercion is never consulted; in `exec` and `eval` a boolean whose string form can be computed converts to that host boolean |
| ScriptInterpreterProperties.MessageOnlyInConversionFailure | cloudslang-runtime/src/main/java/io/cloudslang/lang/runtime/bindings/scripts/AbstractScriptInterpreter.java:92-104 | changing the prepared message changes nothing unless the outcome is a wrapped `TypeError`, which then carries the new message and the same cause |
| ScriptInterpreter.ExecErrorMessage | cloudslang-runtime/src/main/java/io/cloudslang/lang/runtime/bindings/scripts/AbstractScriptInterpreter.java:72-76 | the `exec` message starts with the non-serializable notice and contains the variable name, the value's string form and the hint `del <name>` |
| ScriptInterpreter.EvalErrorMessage | cloudslang-runtime/src/main/java/io/cloudslang/lang/runtime/bindings/scripts/AbstractScriptInterpreter.java:80-83 | the `eval` message starts with the evaluation notice and contains the expression text and the value's string form |
| ScriptInterpreterProperties.ExecAndEvalMessagesDiffer | cloudslang-runtime/src/main/java/io/cloudslang/lang/runtime/bindings/scripts/AbstractScriptInterpreter.java:72-85 | an `exec` conversion message is never equal to an `eval` one |
| ScriptInterpreter.ToJavaExec | cloudslang-runtime/src/main/java/io/cloudslang/lang/runtime/bindings/scripts/AbstractScriptInterpreter.java:72-78 | an exception from computing the value's string form propagates first; otherwise converting a local succeeds exactly when the value coerces, with its host counterpart; a coercion `TypeError` is wrapped as cause with exactly the `exec` message for that key and string form; any other coercion exception propagates unchanged |
| ScriptInterpreter.ToJavaEval | cloudslang-runtime/src/main/java/io/cloudslang/lang/runtime/bindings/scripts/AbstractScriptInterpreter.java:80-85 | an exception from computing the value's string form propagates first; otherwise converting the expression's value succeeds exactly when it coerces, with its host counterpart; a coercion `TypeError` is wrapped as cause with exactly the `eval` message for that expression and string form; any other coercion exception propagates unchanged |
| ScriptInterpreter.Harvest | cloudslang-runtime/src/main/java/io/cloudslang/lang/runtime/bindings/scripts/AbstractScriptInterpreter.java:47-58 | over a snapshot of names, the harvest succeeds exactly when every non-excluded local has a computable string form and coerces; its map then has exactly the non-excluded names as keys, each with its value's host counterpart; a failure is always the failure of converting some non-excluded local |
| ScriptInterpreter.SnapshotNames | cloudslang-runtime/src/main/java/io/cloudslang/lang/runtime/bindings/scripts/AbstractScriptInterpreter.java:47-50 | the snapshot lists every local name exactly once and nothing else |
| ScriptInterpreter.Exec | cloudslang-runtime/src/main/java/io/cloudslang/lang/runtime/bindings/scripts/AbstractScriptInterpreter.java:45-59 | the session keeps the script's effect on the locals; a script exception propagates unchanged; otherwise the call succeeds exactly when every non-excluded local has a computable string form and coerces, returning a map whose keys are exactly the non-excluded locals with their converted values, and on failure returns no map and the error of converting some non-excluded local |
| ScriptInterpreter.Eval | cloudslang-runtime/src/main/java/io/cloudslang/lang/runtime/bindings/scripts/AbstractScriptInterpreter.java:61-66 | an evaluation exception propagates unchanged, as does one from computing the value's string form; otherwise the result succeeds exactly when the value coerces, with its host counterpart; a coercion `TypeError` is wrapped with the `eval` message naming the expression and the `TypeError` as cause; any other coercion exception propagates unchanged |
| ScriptInterpreterProperties.ExecAndEvalConvertAlike | cloudslang-runtime/src/main/java/io/cloudslang/lang/runtime/bindings/scripts/AbstractScriptInterpreter.java:72-85 | for the same value `exec` and `eval` succeed with the same host value, propagate the same exception, or both wrap the same `TypeError`; only the message differs |
| ScriptInterpreterProperties.EvalBooleanResult | cloudslang-runtime/src/main/java/io/cloudslang/lang/runtime/bindings/scripts/AbstractScriptInterpreter.java:61-66 | an expression evaluating to a Python boolean yields the host boolean with the same truth value |
| ScriptInterpreterProperties.HarvestFrame | cloudslang-runtime/src/main/java/io/cloudslang/lang/runtime/bindings/scripts/AbstractScriptInterpreter.java:49-57 | the harvest reads only the locals in its snapshot: namespaces agreeing on them give the same outcome |
| ScriptInterpreterProperties.ExcludedBindingChangesNothing | cloudslang-runtime/src/main/java/io/cloudslang/lang/runtime/bindings/scripts/AbstractScriptInterpreter.java:50-54 | a script that additionally binds an excluded local gets exactly the same outcome, error included |
| ScriptInterpreterProperties.ExcludedNeverConverted | cloudslang-runtime/src/main/java/io/cloudslang/lang/runtime/bindings/scripts/AbstractScriptInterpreter.java:52-56 | engines that convert and print every non-excluded local alike give the same outcome, so excluded locals are never converted and can never cause a failure |
| ScriptInterpreterProperties.HarvestOrderIrrelevant | cloudslang-runtime/src/main/java/io/cloudslang/lang/runtime/bindings/scripts/AbstractScriptInterpreter.java:47-58 | two iteration orders of the same names both succeed with the same map or both fail |
| ScriptInterpreterProperties.ExecAfterClean | cloudslang-runtime/src/main/java/io/cloudslang/lang/runtime/bindings/scripts/AbstractScriptInterpreter.java:33-58 | after the reset, running a script that raises nothing and binds only excluded locals returns an empty map, whatever was bound before |

## Left out

- Executing Python (`interpreter.exec`, `interpreter.eval`): a foreign library, modelled as the engine's `run` and `evaluate` functions.
- The internals of `Py.tojava` and `String.valueOf(PyObject)`, including which Python types are serializable: modelled as the engine's `tojava` and `show` functions, each of which may return a value or raise.
- The Java-to-Python coercion that `interpreter.set` applies in `setValueInContext`: the model binds a value that is already a Python value.
- `getLocals`: the locals are the session's `locals` field.
- `@Autowired` injection of the interpreter: plumbing.
- Thread safety: the class assumes single-threaded use of one session.
- The iteration order of the locals: `Exec` takes an arbitrary order; only which of several failing locals is reported depends on it.
- ScriptInterpreter.Eval: does not model side effects an evaluated expression could have on the locals; the engine's `evaluate` returns only a value.
