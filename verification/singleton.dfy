/**
 * The Singleton code example: `Logger.getInstance` creates the shared logger
 * on first use and returns the same one afterwards. Objects are identified by
 * the order in which they were constructed.
 */
module Singleton {
  import opened Wrappers

  type LoggerRef = nat

  /** The static `instance` field and the number of loggers constructed so far. */
  datatype Runtime = Runtime(instance: Option<LoggerRef>, constructed: nat)

  /** Every constructed logger is the instance: the runtime a program can reach. */
  predicate Valid(rt: Runtime) {
    match rt.instance
    case None => rt.constructed == 0
    case Some(r) => rt.constructed == 1 && r == 0
  }

  /** `instance` starts out `null`. */
  const Initial: Runtime := Runtime(None, 0)

  /** `Logger.getInstance()`: the new runtime and the logger returned. */
  function GetInstance(rt: Runtime): (r: (Runtime, LoggerRef))
    ensures r.0.instance == Some(r.1)
    ensures rt.instance.Some? ==> r == (rt, rt.instance.value)
    ensures rt.instance.None? ==> r.0.constructed == rt.constructed + 1
    ensures Valid(rt) ==> Valid(r.0)
  {
    match rt.instance
    case Some(logger) => (rt, logger)
    case None => (Runtime(Some(rt.constructed), rt.constructed + 1), rt.constructed)
  }

  /** `log(message)`: writes to the console only; the runtime is returned as it was. */
  function Log(rt: Runtime, logger: LoggerRef, message: string): Runtime {
    rt
  }

  /** `useLogger()`: fetch the shared logger and log through it. */
  function UseLogger(rt: Runtime): (r: Runtime)
    ensures r.instance.Some?
    ensures rt.instance.Some? ==> r == rt
    ensures r.constructed <= rt.constructed + 1
  {
    var (after, logger) := GetInstance(rt);
    Log(after, logger, "Se emite un mensaje desde un Singleton")
  }

  /** After the first call, `getInstance` returns the same logger and changes nothing. */
  lemma GetInstanceIdempotent(rt: Runtime)
    ensures var (rt1, a) := GetInstance(rt);
            GetInstance(rt1) == (rt1, a)
  {
  }

  /** Calling `useLogger` any number of times constructs one logger in total. */
  function UseLoggerTimes(rt: Runtime, n: nat): Runtime
    decreases n
  {
    if n == 0 then rt else UseLoggerTimes(UseLogger(rt), n - 1)
  }

  lemma {:induction false} UseLoggerConstructsOnce(n: nat)
    requires n > 0
    ensures UseLoggerTimes(Initial, n) == Runtime(Some(0), 1)
  {
    var first := UseLogger(Initial);
    assert first == Runtime(Some(0), 1);
    StableAfterFirst(first, n - 1);
  }

  lemma {:induction false} StableAfterFirst(rt: Runtime, n: nat)
    requires rt.instance.Some?
    ensures UseLoggerTimes(rt, n) == rt
    decreases n
  {
    if n > 0 {
      StableAfterFirst(UseLogger(rt), n - 1);
    }
  }

  /** From the initial runtime, every sequence of calls keeps at most one logger. */
  lemma ReachableValid(n: nat)
    ensures Valid(UseLoggerTimes(Initial, n))
  {
    if n > 0 {
      UseLoggerConstructsOnce(n);
    }
  }
}
