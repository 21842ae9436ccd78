/**
 * The keyboard-command helper of src/events/onCommand.ts: a map from
 * command name to the set of callbacks registered for it, with duplicate
 * detection, and one host `onCommand` listener added per registration.
 */
module OnCommand {
  import opened Wrappers
  import opened Js
  import opened Host

  /** `Partial<CommandListenerOptions>`. */
  datatype CommandOptions = CommandOptions(force: Prop<bool>)

  const NoOptions := CommandOptions(Omitted)

  /** `{force: false, ...options}.force`. */
  function Force(o: CommandOptions): (f: Option<bool>)
    ensures o.force.Omitted? ==> f == Some(false)
    ensures o.force.Present? ==> f == o.force.value
  {
    Spread(Some(false), o.force)
  }

  /** A host `onCommand` listener: it calls `callback` when `commandName` fires. */
  datatype CommandListener = CommandListener(commandName: string, callback: Callback)

  /** The error thrown for a duplicate registration without `force`. */
  function DuplicateMessage(commandName: string): (message: string)
    ensures |message| == |commandName| + 51
    ensures message[9..9 + |commandName|] == commandName
  {
    "Command \"" + commandName + "\" is already registered with this callback"
  }

  /** `registeredCommands.get(commandName) || new Set()`. */
  function Registered(registered: map<string, set<Callback>>, commandName: string): (s: set<Callback>)
    ensures commandName in registered ==> s == registered[commandName]
    ensures commandName !in registered ==> s == {}
  {
    if commandName in registered then registered[commandName] else {}
  }

  /** The callbacks the host listeners invoke, in listener order, when `command` fires. */
  function Fired(listeners: seq<CommandListener>, command: string): (cbs: seq<Callback>)
    ensures |cbs| <= |listeners|
  {
    if |listeners| == 0 then []
    else
      var last := listeners[|listeners| - 1];
      Fired(listeners[..|listeners| - 1], command) + (if last.commandName == command then [last.callback] else [])
  }

  /** One more listener adds its callback at the end, for its own command only. */
  lemma FiredAppend(listeners: seq<CommandListener>, l: CommandListener, command: string)
    ensures Fired(listeners + [l], command)
            == Fired(listeners, command) + (if l.commandName == command then [l.callback] else [])
  {
    assert (listeners + [l])[..|listeners|] == listeners;
  }

  /** A callback fires for a command exactly when some listener pairs the two. */
  lemma {:induction false} FiredMembership(listeners: seq<CommandListener>, command: string, cb: Callback)
    ensures cb in Fired(listeners, command) <==> CommandListener(command, cb) in listeners
  {
    if |listeners| > 0 {
      var init := listeners[..|listeners| - 1];
      FiredMembership(init, command, cb);
      assert listeners == init + [listeners[|listeners| - 1]];
    }
  }

  /** The registry and the host listeners describe the same (command, callback) pairs. */
  ghost predicate Consistent(registered: map<string, set<Callback>>, listeners: seq<CommandListener>)
  {
    && (forall name :: name in registered ==>
          forall cb :: cb in registered[name] ==> CommandListener(name, cb) in listeners)
    && (forall l :: l in listeners ==> l.commandName in registered && l.callback in registered[l.commandName])
  }

  /** When the two agree, the callbacks a command fires are exactly those registered for it. */
  lemma FiredAreRegistered(registered: map<string, set<Callback>>, listeners: seq<CommandListener>, command: string)
    requires Consistent(registered, listeners)
    ensures (set cb | cb in Fired(listeners, command)) == Registered(registered, command)
  {
    forall cb ensures cb in Fired(listeners, command) <==> cb in Registered(registered, command) {
      FiredMembership(listeners, command, cb);
    }
  }

  /** A forced re-registration leaves two listeners, so the callback fires twice per command. */
  lemma ForcedRegistrationFiresTwice(listeners: seq<CommandListener>, command: string, cb: Callback)
    ensures Fired(listeners + [CommandListener(command, cb)] + [CommandListener(command, cb)], command)
            == Fired(listeners, command) + [cb, cb]
  {
    FiredAppend(listeners, CommandListener(command, cb), command);
    FiredAppend(listeners + [CommandListener(command, cb)], CommandListener(command, cb), command);
  }

  /** The `registeredCommands` map and the host listeners `addOnCommandListener` added. */
  class CommandRegistry {
    var registered: map<string, set<Callback>>
    var listeners: seq<CommandListener>

    ghost predicate Valid()
      reads this
    {
      Consistent(registered, listeners)
    }

    /** The map starts empty and no listener is installed. */
    constructor()
      ensures Valid() && registered == map[] && listeners == []
    {
      registered := map[];
      listeners := [];
    }

    /**
     * `addOnCommandListener(commandName, callback, options)`. A callback
     * already registered for the command throws unless `force` is truthy,
     * and then nothing changes. Otherwise the callback joins the set for
     * its command, other commands keep theirs, and exactly one host
     * listener is appended.
     */
    method AddOnCommandListener(commandName: string, callback: Callback, options: CommandOptions)
      returns (r: Result<(), string>)
      requires Valid()
      modifies this
      ensures Valid()
      ensures r.Failure? <==> callback in Registered(old(registered), commandName) && !IsSet(Force(options))
      ensures r.Failure? ==> r.error == DuplicateMessage(commandName)
                             && registered == old(registered) && listeners == old(listeners)
      ensures r.Success? ==> registered == old(registered)[commandName := Registered(old(registered), commandName) + {callback}]
      ensures r.Success? ==> listeners == old(listeners) + [CommandListener(commandName, callback)]
    {
      var callbacks := Registered(registered, commandName);
      if callback in callbacks {
        if !IsSet(Force(options)) {
          return Failure(DuplicateMessage(commandName));
        } else {
          callbacks := callbacks - {callback};
        }
      }
      callbacks := callbacks + {callback};
      assert callbacks == Registered(registered, commandName) + {callback};
      registered := registered[commandName := callbacks];
      listeners := listeners + [CommandListener(commandName, callback)];
      r := Success(());
    }

    /** What the installed host listeners invoke when `command` fires. */
    function Fire(command: string): (cbs: seq<Callback>)
      reads this
      requires Valid()
      ensures (set cb | cb in cbs) == Registered(registered, command)
    {
      FiredAreRegistered(registered, listeners, command);
      Fired(listeners, command)
    }
  }
}
