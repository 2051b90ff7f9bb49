/**
 * The server's logger registry (`server/app/logging.go`): a handler keeps one
 * zerolog context per name, created on first use and reused afterwards.
 * Contexts and loggers are opaque values here: a context records the writer
 * it logs to and its context name, a logger the context it was built from.
 */
module Logging {

  /** The `io.Writer` every created context logs to, identified by a number. */
  datatype Writer = Writer(id: nat)

  /** A `zerolog.Context`: where it writes, its fields, whether it stamps the time. */
  datatype LogContext = LogContext(writer: Writer, fields: seq<(string, string)>, timestamp: bool)

  /** A `zerolog.Logger` obtained from a context with `Logger()`. */
  datatype Logger = Logger(context: LogContext)

  /** `zerolog.New(writer).With().Str("context", name).Timestamp()`. */
  function FreshContext(writer: Writer, name: string): (c: LogContext)
    ensures c.writer == writer && c.timestamp
    ensures ("context", name) in c.fields
  {
    LogContext(writer, [("context", name)], true)
  }

  type ContextList = map<string, LogContext>

  /**
   * What `Context(name)` does to the map and returns: the stored entry when
   * there is one, otherwise a fresh context stored under `name`.
   */
  function GetOrCreate(list: ContextList, writer: Writer, name: string): (r: (ContextList, LogContext))
    ensures name in r.0 && r.1 == r.0[name]
    ensures name in list ==> r.0 == list && r.1 == list[name]
    ensures name !in list ==> r.0.Keys == list.Keys + {name} && r.1 == FreshContext(writer, name)
    ensures forall k :: k in list ==> k in r.0 && r.0[k] == list[k]
  {
    if name in list then (list, list[name])
    else
      var c := FreshContext(writer, name);
      (list[name := c], c)
  }

  /** The operations that touch the map: `SetContext` and `Context`. */
  datatype Op = SetOp(name: string, context: LogContext) | GetOp(name: string)

  /** The map after one operation. */
  function Step(list: ContextList, writer: Writer, op: Op): ContextList
  {
    match op
    case SetOp(name, c) => list[name := c]
    case GetOp(name) => GetOrCreate(list, writer, name).0
  }

  /** The map after a run of operations, first to last. */
  function Run(list: ContextList, writer: Writer, ops: seq<Op>): ContextList
    decreases |ops|
  {
    if ops == [] then list else Run(Step(list, writer, ops[0]), writer, ops[1..])
  }

  /** The names a run of operations mentions. */
  function Names(ops: seq<Op>): set<string>
    decreases |ops|
  {
    if ops == [] then {} else {ops[0].name} + Names(ops[1..])
  }

  class LoggingHandler {
    var writer: Writer
    var defaultContext: string
    var contextList: ContextList

    /** `NewLoggingHandler`: an empty registry with the given writer and default name. */
    constructor (writer: Writer, defaultContext: string)
      ensures this.writer == writer && this.defaultContext == defaultContext
      ensures contextList == map[]
    {
      this.writer := writer;
      this.defaultContext := defaultContext;
      contextList := map[];
    }

    /** `SetContext`: store `context` under `contextName`, replacing any entry there. */
    method SetContext(contextName: string, context: LogContext)
      modifies this
      ensures contextList == Step(old(contextList), writer, SetOp(contextName, context))
      ensures writer == old(writer) && defaultContext == old(defaultContext)
    {
      contextList := contextList[contextName := context];
    }

    /**
     * `Context`: the stored context for `contextName`, created and stored
     * first when there is none.
     */
    method Context(contextName: string) returns (context: LogContext)
      modifies this
      ensures (contextList, context) == GetOrCreate(old(contextList), writer, contextName)
      ensures writer == old(writer) && defaultContext == old(defaultContext)
    {
      if contextName in contextList {
        return contextList[contextName];
      }
      context := FreshContext(writer, contextName);
      contextList := contextList[contextName := context];
    }

    /** `LoggerFromContext`: a logger built from `Context(contextName)`. */
    method LoggerFromContext(contextName: string) returns (logger: Logger)
      modifies this
      ensures var (list, c) := GetOrCreate(old(contextList), writer, contextName);
        contextList == list && logger == Logger(c)
      ensures writer == old(writer) && defaultContext == old(defaultContext)
    {
      var context := Context(contextName);
      logger := Logger(context);
    }

    /** `Default`: the logger of the default context. */
    method Default() returns (logger: Logger)
      modifies this
      ensures var (list, c) := GetOrCreate(old(contextList), writer, old(defaultContext));
        contextList == list && logger == Logger(c)
      ensures writer == old(writer) && defaultContext == old(defaultContext)
    {
      logger := LoggerFromContext(defaultContext);
    }
  }

  // ---------------------------------------------------------------------------
  // Properties of the registry
  // ---------------------------------------------------------------------------

  /** Asking twice for the same name gives the same context, and the second ask changes nothing. */
  lemma GetOrCreateIdempotent(list: ContextList, writer: Writer, name: string)
    ensures var (list1, c1) := GetOrCreate(list, writer, name);
      GetOrCreate(list1, writer, name) == (list1, c1)
  {
  }

  /** `SetContext` changes the entry for its name and no other. */
  lemma SetContextChangesOnlyItsName(list: ContextList, writer: Writer, name: string, c: LogContext)
    ensures var after := Step(list, writer, SetOp(name, c));
      after.Keys == list.Keys + {name} && after[name] == c &&
      forall k :: k in list && k != name ==> after[k] == list[k]
  {
  }

  /** One operation never removes a name from the map and adds only its own. */
  lemma StepKeys(list: ContextList, writer: Writer, op: Op)
    ensures Step(list, writer, op).Keys == list.Keys + {op.name}
  {
  }

  /**
   * No run of operations removes an entry: the names afterwards are the
   * names before plus exactly the names the run mentions.
   */
  lemma {:induction false} RunKeys(list: ContextList, writer: Writer, ops: seq<Op>)
    ensures Run(list, writer, ops).Keys == list.Keys + Names(ops)
    decreases |ops|
  {
    if ops != [] {
      StepKeys(list, writer, ops[0]);
      RunKeys(Step(list, writer, ops[0]), writer, ops[1..]);
    }
  }

  /**
   * A run that never sets `name` leaves its stored context alone: once a
   * name has a context, every later `Context(name)` returns that context.
   */
  lemma {:induction false} RunKeepsUnsetEntry(list: ContextList, writer: Writer, ops: seq<Op>, name: string)
    requires name in list
    requires forall i :: 0 <= i < |ops| ==> !(ops[i].SetOp? && ops[i].name == name)
    ensures name in Run(list, writer, ops) && Run(list, writer, ops)[name] == list[name]
    decreases |ops|
  {
    if ops != [] {
      var next := Step(list, writer, ops[0]);
      assert next[name] == list[name];
      RunKeepsUnsetEntry(next, writer, ops[1..], name);
    }
  }
}
