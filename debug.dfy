/**
 * The global debug switch of src/debug.ts: one module-level flag, read,
 * set, or used to decide whether a message is logged.
 */
module Debug {
  import opened Wrappers

  /** The argument of `DEBUG(debug?)`: nothing (or `undefined`), a boolean, or a string. */
  datatype DebugArg = NoArg | BoolArg(b: bool) | StrArg(s: string)

  /** The `_DEBUG` flag, with the console lines `DEBUG` has printed. */
  class DebugFlag {
    var on: bool
    var log: seq<string>

    /** The flag starts off. */
    constructor()
      ensures !on && log == []
    {
      on := false;
      log := [];
    }

    /**
     * `DEBUG(debug?)`: with no argument, the flag is returned; with a
     * boolean, the flag is set to it; with a string, the string is logged
     * exactly when the flag is on, and the flag is kept. The last two
     * return `undefined` (`None`).
     */
    method Debug(arg: DebugArg) returns (r: Option<bool>)
      modifies this
      ensures arg.NoArg? ==> r == Some(old(on)) && on == old(on) && log == old(log)
      ensures arg.BoolArg? ==> r == None && on == arg.b && log == old(log)
      ensures arg.StrArg? ==> r == None && on == old(on)
                              && log == old(log) + (if old(on) then [arg.s] else [])
    {
      match arg
      case NoArg =>
        r := Some(on);
      case BoolArg(b) =>
        on := b;
        r := None;
      case StrArg(s) =>
        if on {
          log := log + [s];
        }
        r := None;
    }
  }

  /** The effect of one call on the flag, as a value. */
  function Step(on: bool, arg: DebugArg): (next: bool)
    ensures arg.BoolArg? ==> next == arg.b
    ensures !arg.BoolArg? ==> next == on
  {
    if arg.BoolArg? then arg.b else on
  }

  /** The flag after a sequence of calls from the initial state. */
  function Replay(args: seq<DebugArg>): bool
  {
    if |args| == 0 then false else Step(Replay(args[..|args| - 1]), args[|args| - 1])
  }

  /** The flag is the last boolean given, or off when none was given. */
  lemma {:induction false} ReplayIsLastBool(args: seq<DebugArg>)
    ensures (forall k :: 0 <= k < |args| ==> !args[k].BoolArg?) ==> !Replay(args)
    ensures forall k :: (0 <= k < |args| && args[k].BoolArg? && forall j :: k < j < |args| ==> !args[j].BoolArg?)
                        ==> Replay(args) == args[k].b
  {
    if |args| > 0 {
      var init := args[..|args| - 1];
      ReplayIsLastBool(init);
      assert forall k :: 0 <= k < |init| ==> init[k] == args[k];
    }
  }

  /** The class follows the value model: running the calls on a fresh flag leaves it at `Replay`. */
  method RunCalls(args: seq<DebugArg>) returns (on: bool)
    ensures on == Replay(args)
  {
    var flag := new DebugFlag();
    var i := 0;
    while i < |args|
      invariant 0 <= i <= |args|
      invariant flag.on == Replay(args[..i])
    {
      var _ := flag.Debug(args[i]);
      assert args[..i + 1][..i] == args[..i];
      i := i + 1;
    }
    assert args[..i] == args;
    on := flag.on;
  }
}
