/**
 * The hierarchic `Logger` of lib/logger.ts.  A logger holds its level, a
 * record of named appenders and a link to its parent; an event a logger
 * emits goes to the local appenders that take it, and only when none does
 * to the parent.  Calling an appender's `handle` starts asynchronous work
 * whose failures are only reported on the console; it is modelled as a
 * `HandleCall` record returned by `Emit`.
 */
module Logging {
  import opened Wrappers
  import opened Values
  import opened Definitions
  import opened Records
  import AppenderBase

  /**
   * An appender instance as a logger sees it: the class it was made from,
   * its optional level and the properties a configuration set on it.
   */
  datatype Appender = Appender(cls: Callable, level: Option<int>, props: seq<(string, Value)>) {
    /** `willHandle(event)` of the appender base class. */
    predicate WillHandle(event: LogEvent) {
      AppenderBase.WillHandle(level, event.level)
    }
  }

  /** One call of `appender.handle(event)`, with the name the appender is registered under. */
  datatype HandleCall = HandleCall(name: string, appender: Appender, event: LogEvent)

  /** The `handle` calls of one pass over the entries: one per appender that takes the event, in entry order. */
  function Accepting(entries: seq<(string, Appender)>, event: LogEvent): (calls: seq<HandleCall>)
    ensures |calls| <= |entries|
    ensures forall c :: c in calls ==> c.event == event && c.appender.WillHandle(event)
  {
    if |entries| == 0 then []
    else
      var last := entries[|entries| - 1];
      Accepting(entries[..|entries| - 1], event) +
      (if last.1.WillHandle(event) then [HandleCall(last.0, last.1, event)] else [])
  }

  /**
   * Exactly the appenders taking the event are called, each once with its
   * own name and the event itself.
   */
  lemma {:induction false} AcceptingExactly(entries: seq<(string, Appender)>, event: LogEvent)
    ensures forall c :: c in Accepting(entries, event) <==>
      exists i :: 0 <= i < |entries| && entries[i].1.WillHandle(event) && c == HandleCall(entries[i].0, entries[i].1, event)
  {
    if |entries| > 0 {
      var front := entries[..|entries| - 1];
      AcceptingExactly(front, event);
      forall c
        ensures c in Accepting(entries, event) <==>
          exists i :: 0 <= i < |entries| && entries[i].1.WillHandle(event) && c == HandleCall(entries[i].0, entries[i].1, event)
      {
        if exists i :: 0 <= i < |entries| && entries[i].1.WillHandle(event) && c == HandleCall(entries[i].0, entries[i].1, event) {
          var i :| 0 <= i < |entries| && entries[i].1.WillHandle(event) && c == HandleCall(entries[i].0, entries[i].1, event);
          if i < |front| {
            assert front[i] == entries[i];
          }
        }
        if c in Accepting(front, event) {
          var i :| 0 <= i < |front| && front[i].1.WillHandle(event) && c == HandleCall(front[i].0, front[i].1, event);
          assert entries[i] == front[i];
        }
      }
    }
  }

  /** No call is made exactly when no appender takes the event. */
  lemma AcceptingEmpty(entries: seq<(string, Appender)>, event: LogEvent)
    ensures Accepting(entries, event) == [] <==> forall i :: 0 <= i < |entries| ==> !entries[i].1.WillHandle(event)
  {
    AcceptingExactly(entries, event);
    if Accepting(entries, event) != [] {
      assert Accepting(entries, event)[0] in Accepting(entries, event);
    }
    if exists i :: 0 <= i < |entries| && entries[i].1.WillHandle(event) {
      var i :| 0 <= i < |entries| && entries[i].1.WillHandle(event);
      assert HandleCall(entries[i].0, entries[i].1, event) in Accepting(entries, event);
    }
  }

  /**
   * The payload `logEvent` is meant to build: a function argument is called
   * and its result is logged as the only argument; otherwise the arguments
   * are the payload.
   */
  function LoggedPayload(args: seq<Value>): (p: Payload)
    ensures p.Args?
    ensures |args| > 0 && args[0].Fn? ==> p.values == [Str(args[0].f.callResult)]
    ensures !(|args| > 0 && args[0].Fn?) ==> p.values == args
  {
    if |args| > 0 && args[0].Fn? then Args([Str(args[0].f.callResult)]) else Args(args)
  }

  /**
   * The payload as lib/logger.ts:41-45 builds it: the result of a function
   * argument itself becomes the payload, which is neither a function nor an
   * argument list.
   */
  function PayloadAsWritten(args: seq<Value>): (p: Payload)
    ensures |args| > 0 && args[0].Fn? ==> p == Bare(Str(args[0].f.callResult))
    ensures !(|args| > 0 && args[0].Fn?) ==> p == Args(args)
  {
    if |args| > 0 && args[0].Fn? then Bare(Str(args[0].f.callResult)) else Args(args)
  }

  /** The two payloads agree on every call whose first argument is not a function. */
  lemma PayloadsAgreeWithoutFunction(args: seq<Value>)
    requires |args| == 0 || !args[0].Fn?
    ensures PayloadAsWritten(args) == LoggedPayload(args) == Args(args)
  {
  }

  /**
   * The intended payload is always an argument list; the written one is an
   * argument list, and equal to the intended one, exactly when the first
   * argument is not a function.
   */
  lemma PayloadsDifferExactlyOnFunction(args: seq<Value>)
    ensures LoggedPayload(args).Args?
    ensures PayloadAsWritten(args).Args? <==> !(|args| > 0 && args[0].Fn?)
    ensures PayloadAsWritten(args) == LoggedPayload(args) <==> !(|args| > 0 && args[0].Fn?)
  {
  }

  class Logger {
    const name: string
    const parent: Logger?
    /** The number of loggers above this one. */
    ghost const depth: nat
    /** The loggers above this one. */
    ghost const ancestors: set<Logger>
    var level: int
    var appender: seq<(string, Appender)>

    /** The parent chain is finite and `ancestors` collects it. */
    ghost predicate Linked()
      decreases depth
    {
      if parent == null then depth == 0 && ancestors == {}
      else parent.depth < depth && ancestors == {parent} + parent.ancestors && parent.Linked()
    }

    /** The appender record has no key twice. */
    predicate Valid()
      reads this`appender
    {
      Distinct(Keys(appender))
    }

    /**
     * `new Logger(name, parent, level)`: the level is the given one, else the
     * parent's level at this moment, else ERROR; no appenders.
     */
    constructor(name: string, parent: Logger?, level: Option<int>)
      requires parent != null ==> parent.Linked()
      ensures this.name == name && this.parent == parent && Linked() && this !in ancestors
      ensures this.level == if level.Some? then level.value else if parent != null then parent.level else ERROR
      ensures appender == [] && Valid()
    {
      this.name := name;
      this.parent := parent;
      if parent == null {
        depth := 0;
        ancestors := {};
      } else {
        depth := parent.depth + 1;
        ancestors := {parent} + parent.ancestors;
      }
      this.level := if level.Some? then level.value else if parent != null then parent.level else ERROR;
      appender := [];
    }

    /**
     * `shouldLog(level)`: the logger's gate is the gate of an appender set to
     * the logger's own level, so that level is the least one it logs and it
     * logs every higher one.
     */
    function ShouldLog(level: int): (r: bool)
      reads this
      ensures r <==> AppenderBase.WillHandle(Some(this.level), level)
    {
      level >= this.level
    }

    /**
     * `addAppender(appenderName, appender, overwrite)`: registers the appender
     * when overwriting is allowed or the name is new, and reports whether it did.
     */
    method AddAppender(appenderName: string, a: Appender, overwrite: bool) returns (added: bool)
      requires Valid()
      modifies this`appender
      ensures Valid() && level == old(level)
      ensures added <==> overwrite || appenderName !in Keys(old(appender))
      ensures added ==> appender == Put(old(appender), appenderName, a)
      ensures !added ==> appender == old(appender)
    {
      if overwrite || appenderName !in Keys(appender) {
        PutDistinct(appender, appenderName, a);
        appender := Put(appender, appenderName, a);
        return true;
      }
      return false;
    }

    /** `removeAppender(appenderName)`: deletes the name and reports whether it was there. */
    method RemoveAppender(appenderName: string) returns (removed: bool)
      requires Valid()
      modifies this`appender
      ensures Valid() && level == old(level)
      ensures removed <==> appenderName in Keys(old(appender))
      ensures appender == Remove(old(appender), appenderName)
    {
      RemoveFacts(appender, appenderName);
      if appenderName in Keys(appender) {
        appender := Remove(appender, appenderName);
        return true;
      }
      return false;
    }

    /**
     * What `emit(event)` does: the local appenders that take the event are
     * called and the result is true; when there is none, the parent decides;
     * without a parent nothing is called and the result is false.
     */
    ghost function Dispatch(event: LogEvent): (r: (bool, seq<HandleCall>))
      reads this, ancestors
      requires Linked()
      decreases depth
    {
      var local := Accepting(appender, event);
      if |local| > 0 then (true, local)
      else if parent == null then (false, [])
      else parent.Dispatch(event)
    }

    /** `emit(event)`. */
    method Emit(event: LogEvent) returns (handled: bool, calls: seq<HandleCall>)
      requires Linked()
      ensures (handled, calls) == Dispatch(event)
      decreases depth
    {
      handled := false;
      calls := [];
      var entries := appender;
      for i := 0 to |entries|
        invariant calls == Accepting(entries[..i], event)
        invariant handled <==> |calls| > 0
      {
        var entry := entries[i];
        assert entries[..i + 1][..i] == entries[..i];
        if entry.1.WillHandle(event) {
          calls := calls + [HandleCall(entry.0, entry.1, event)];
          handled := true;
        }
      }
      assert entries[..|entries|] == entries;
      if !handled && parent != null {
        handled, calls := parent.Emit(event);
      }
    }

    /**
     * An emitted event is handled exactly when some logger on the way up,
     * this one included, has an appender that takes it; every call made is
     * a call of `handle` with that very event by an appender that takes it.
     */
    lemma {:induction false} DispatchHandledIff(event: LogEvent)
      requires Linked()
      ensures Dispatch(event).0 <==> |Dispatch(event).1| > 0
      ensures Dispatch(event).0 <==> exists l :: l in {this} + ancestors && |Accepting(l.appender, event)| > 0
      ensures forall c :: c in Dispatch(event).1 ==> c.event == event && c.appender.WillHandle(event)
      decreases depth
    {
      AcceptingExactly(appender, event);
      if |Accepting(appender, event)| > 0 {
        assert Dispatch(event).1 == Accepting(appender, event);
      } else if parent != null {
        parent.DispatchHandledIff(event);
        assert Dispatch(event) == parent.Dispatch(event);
        assert {this} + ancestors == {this} + ({parent} + parent.ancestors);
      }
    }

    /** The outcome of `logEvent(level, ...args)` at the time `now`. */
    ghost predicate LoggedAs(level: int, args: seq<Value>, now: DateTime,
                             event: Option<LogEvent>, calls: seq<HandleCall>, invocations: nat)
      reads this, ancestors
      requires Linked()
    {
      if level >= this.level then
        event == Some(Definitions.LogEvent.LogEvent(level, name, LoggedPayload(args), now, None)) &&
        calls == Dispatch(event.value).1 &&
        invocations == (if |args| > 0 && args[0].Fn? then 1 else 0)
      else
        event == None && calls == [] && invocations == 0
    }

    /**
     * `logEvent(level, ...args)`: below the logger's level nothing happens and
     * a function argument is not called; otherwise a function argument is
     * called once, the event carries this logger's name, the payload and the
     * time, and it is emitted.
     */
    method LogEvent(level: int, args: seq<Value>, now: DateTime)
      returns (event: Option<LogEvent>, calls: seq<HandleCall>, invocations: nat)
      requires Linked()
      ensures LoggedAs(level, args, now, event, calls, invocations)
    {
      if !ShouldLog(level) {
        return None, [], 0;
      }
      var payload: Payload;
      if |args| > 0 && args[0].Fn? {
        payload := Args([Str(args[0].f.callResult)]);
        invocations := 1;
      } else {
        payload := Args(args);
        invocations := 0;
      }
      var e := Definitions.LogEvent.LogEvent(level, name, payload, now, None);
      var _, c := Emit(e);
      return Some(e), c, invocations;
    }

    /** `debug(...args)`. */
    method Debug(args: seq<Value>, now: DateTime) returns (event: Option<LogEvent>, calls: seq<HandleCall>, invocations: nat)
      requires Linked()
      ensures LoggedAs(DEBUG, args, now, event, calls, invocations)
    {
      event, calls, invocations := LogEvent(DEBUG, args, now);
    }

    /** `error(...args)`. */
    method Error(args: seq<Value>, now: DateTime) returns (event: Option<LogEvent>, calls: seq<HandleCall>, invocations: nat)
      requires Linked()
      ensures LoggedAs(ERROR, args, now, event, calls, invocations)
    {
      event, calls, invocations := LogEvent(ERROR, args, now);
    }

    /** `fatal(...args)`. */
    method Fatal(args: seq<Value>, now: DateTime) returns (event: Option<LogEvent>, calls: seq<HandleCall>, invocations: nat)
      requires Linked()
      ensures LoggedAs(FATAL, args, now, event, calls, invocations)
    {
      event, calls, invocations := LogEvent(FATAL, args, now);
    }

    /** `info(...args)`. */
    method Info(args: seq<Value>, now: DateTime) returns (event: Option<LogEvent>, calls: seq<HandleCall>, invocations: nat)
      requires Linked()
      ensures LoggedAs(INFO, args, now, event, calls, invocations)
    {
      event, calls, invocations := LogEvent(INFO, args, now);
    }

    /** `trace(...args)`. */
    method Trace(args: seq<Value>, now: DateTime) returns (event: Option<LogEvent>, calls: seq<HandleCall>, invocations: nat)
      requires Linked()
      ensures LoggedAs(TRACE, args, now, event, calls, invocations)
    {
      event, calls, invocations := LogEvent(TRACE, args, now);
    }

    /** `warn(...args)`. */
    method Warn(args: seq<Value>, now: DateTime) returns (event: Option<LogEvent>, calls: seq<HandleCall>, invocations: nat)
      requires Linked()
      ensures LoggedAs(WARN, args, now, event, calls, invocations)
    {
      event, calls, invocations := LogEvent(WARN, args, now);
    }
  }
}
