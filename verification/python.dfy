/** The embedded Jython engine, seen from the adapter as an opaque capability.

    Nothing about how Python code runs is modelled: executing a script,
    evaluating an expression, the generic Python-to-Java coercion `Py.tojava`
    and `String.valueOf(PyObject)` are all fields of `Engine` holding arbitrary
    total functions. Every property proved about the adapter therefore holds
    for every possible engine. */
module Python {
  import opened Wrappers

  /** A Python runtime value, classified only as far as the adapter looks at it:
      `PyBoolean`, the four kinds of interpreter machinery (`PyFile`, `PyModule`,
      `PyFunction`, `PySystemState`), and everything else (ints, strings, lists,
      dicts, classes, user objects ...) as `Other`. */
  datatype PyVal =
    | Bool(truth: bool)
    | File(fileId: nat)
    | Module(moduleId: nat)
    | Function(functionId: nat)
    | SystemState
    | Other(objectId: nat)

  /** An interpreter-local namespace: variable name to value. */
  type Namespace = map<string, PyVal>

  /** The `type` slot of a `PyException`: either a `PyType` with a name, or
      some other object (an old-style class, for instance). */
  datatype ExcType = PyType(name: string) | NotAType(classId: nat)

  /** A Python exception as raised into Java. */
  datatype PyException = PyException(excType: ExcType, detail: nat)

  /** A `java.io.Serializable` value handed back to the host. */
  datatype HostVal = HostBool(truth: bool) | HostObject(objectId: nat)

  /** The engine's capabilities.
      - `run(ns, script)`: `interpreter.exec`; the namespace after the run
        (possibly partially updated) and the exception it raised, if any.
      - `evaluate(ns, expression)`: `interpreter.eval`; one value or an exception.
      - `tojava(v)`: `Py.tojava(v, Serializable.class)`; a host value or an exception.
      - `show(v)`: `String.valueOf(v)`, which runs the value's `toString` (its
        `__repr__`) and can itself raise. */
  datatype Engine = Engine(
    run: (Namespace, string) -> (Namespace, Option<PyException>),
    evaluate: (Namespace, string) -> Result<PyVal, PyException>,
    tojava: PyVal -> Result<HostVal, PyException>,
    show: PyVal -> Result<string, PyException>)

  /** The exception's type is a `PyType` whose name is exactly `TypeError`. */
  predicate IsTypeError(e: PyException) {
    e.excType.PyType? && e.excType.name == "TypeError"
  }
}
