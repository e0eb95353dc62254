/**
 * The program's logger. Each level is a set of function-valued fields that
 * either print (`Emit`) or do nothing (`Noop`); `set_level` rewires them so
 * that the requested level and every more severe one print. Output itself
 * (formatting, the background goroutines, the wait group) is not modelled:
 * a field records only which kind of function it holds.
 */
module Logging {

  newtype uint8 = x: int | 0 <= x < 256

  const Fatal: uint8 := 0
  const Error: uint8 := 1
  const Info: uint8 := 2
  const Debug: uint8 := 3

  /** What a logging field holds: Go's zero value (nil), a no-op, or the printing function. */
  datatype Sink = Unset | Noop | Emit

  class Logger {
    var logLevel: uint8
    var panic: Sink
    var fatal: Sink
    var error: Sink
    var errorf: Sink
    var errorFunc: Sink
    var info: Sink
    var infof: Sink
    var infoFunc: Sink
    var debug: Sink
    var debugf: Sink
    var debugFunc: Sink

    /** The zero-valued package-level `logger`: level 0 and every field nil. */
    constructor ()
      ensures Valid() && LogLevel() == Fatal
      ensures panic == fatal == error == errorf == errorFunc == Unset
      ensures info == infof == infoFunc == debug == debugf == debugFunc == Unset
    {
      logLevel := Fatal;
      panic, fatal := Unset, Unset;
      error, errorf, errorFunc := Unset, Unset, Unset;
      info, infof, infoFunc := Unset, Unset, Unset;
      debug, debugf, debugFunc := Unset, Unset, Unset;
    }

    /** The stored level is one `set_level` accepts. */
    predicate Valid()
      reads this
    {
      logLevel <= Debug
    }

    /** `LogLevel()`: the level last stored, never above `Debug` in a valid logger. */
    function LogLevel(): (l: uint8)
      reads this
      ensures Valid() ==> l <= Debug
    {
      logLevel
    }

    /** The fields of one level all print. */
    predicate Emits(level: uint8)
      reads this
    {
      if level == Fatal then fatal == Emit && panic == Emit
      else if level == Error then error == errorf == errorFunc == Emit
      else if level == Info then info == infof == infoFunc == Emit
      else if level == Debug then debug == debugf == debugFunc == Emit
      else false
    }

    /** The fields of one level all do nothing. */
    predicate Silent(level: uint8)
      reads this
    {
      if level == Error then error == errorf == errorFunc == Noop
      else if level == Info then info == infof == infoFunc == Noop
      else if level == Debug then debug == debugf == debugFunc == Noop
      else false
    }

    /**
     * `set_level`: a level above `Debug` is refused and changes nothing;
     * otherwise the level is stored, every level up to and including it
     * prints, and every less severe level is silenced. `Panic` is only ever
     * switched on, never reset.
     */
    method SetLevel(level: uint8) returns (ok: bool)
      modifies this
      ensures ok <==> level <= Debug
      ensures !ok ==> unchanged(this)
      ensures ok ==> LogLevel() == level
      ensures old(Valid()) ==> Valid()
      ensures ok ==> Emits(Fatal)
      ensures ok ==> (Emits(Error) <==> Error <= level) && (Silent(Error) <==> level < Error)
      ensures ok ==> (Emits(Info) <==> Info <= level) && (Silent(Info) <==> level < Info)
      ensures ok ==> (Emits(Debug) <==> Debug <= level) && (Silent(Debug) <==> level < Debug)
    {
      if level > 3 {
        return false;
      }
      logLevel := level;
      fatal := Noop;
      error, errorf, errorFunc := Noop, Noop, Noop;
      info, infof, infoFunc := Noop, Noop, Noop;
      debug, debugf, debugFunc := Noop, Noop, Noop;
      // The switch falls through from the requested level down to `Fatal`.
      if level == Debug {
        debug, debugf, debugFunc := Emit, Emit, Emit;
      }
      if level >= Info {
        info, infof, infoFunc := Emit, Emit, Emit;
      }
      if level >= Error {
        error, errorf, errorFunc := Emit, Emit, Emit;
      }
      fatal := Emit;
      panic := Emit;
      assert level == Fatal || level == Error || level == Info || level == Debug;
      return true;
    }
  }

}
