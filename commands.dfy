/** The commands bound to the remote's buttons. `SwitchOnCommand` and
    `SwitchOffCommand` hold a possibly-null device and reach it through the
    null-checking helpers of `SwitchCommand`; `NoCommand` is the null object. */
module Commands {
  import opened Output
  import opened Devices

  /** The message the null object writes on both `Execute` and `Undo`. */
  const NoCommandMessage := "No command"

  /** What one `Execute` or `Undo` does: switch the bound device (if any) to
      `on`, or announce that no command is assigned. */
  datatype Action = Switch(item: Device?, on: bool) | Announce
  {
    /** The devices the action may change. */
    function Devices(): set<Device>
    {
      if Switch? && item != null then {item} else {}
    }

    /** The lines the action writes, in order. */
    function Lines(): (lines: seq<string>)
      ensures |lines| <= 1
      ensures lines == [] <==> Switch? && item == null
    {
      match this
      case Switch(item, on) =>
        if item == null then []
        else if on then [OnMessage(item.kind)] else [OffMessage(item.kind)]
      case Announce => [NoCommandMessage]
    }

    /** The bound device, if there is one, is in the state the action switches it to. */
    ghost predicate Holds()
      reads Devices()
    {
      Switch? && item != null ==> item.state == on
    }
  }

  datatype Command = SwitchOnCommand(item: Device?) | SwitchOffCommand(item: Device?) | NoCommand
  {
    /** The devices `Execute` and `Undo` may change. */
    function Devices(): set<Device>
    {
      if !NoCommand? && item != null then {item} else {}
    }

    /** What `Execute` does: switch the bound device on (`SwitchOnCommand`)
        or off (`SwitchOffCommand`), or announce (`NoCommand`). */
    function Forward(): (action: Action)
      ensures action.Devices() == Devices()
      ensures action.Announce? <==> NoCommand?
      ensures action.Switch? ==> action.item == item && (action.on <==> SwitchOnCommand?)
    {
      match this
      case SwitchOnCommand(item) => Switch(item, true)
      case SwitchOffCommand(item) => Switch(item, false)
      case NoCommand => Announce
    }

    /** What `Undo` does: the hard-coded opposite of `Execute`, never a saved state. */
    function Backward(): (action: Action)
      ensures action.Devices() == Devices()
      ensures action.Announce? <==> NoCommand?
      ensures action.Switch? ==> action.item == item && (action.on <==> SwitchOffCommand?)
      ensures action.Switch? ==> action.on == !Forward().on
    {
      match this
      case SwitchOnCommand(item) => Switch(item, false)
      case SwitchOffCommand(item) => Switch(item, true)
      case NoCommand => Announce
    }

    /** The command on the same device whose `Execute` is this command's
        `Undo` and the other way round. */
    function Inverse(): (inverse: Command)
      ensures inverse.Forward() == Backward() && inverse.Backward() == Forward()
      ensures inverse.Devices() == Devices()
    {
      match this
      case SwitchOnCommand(item) => SwitchOffCommand(item)
      case SwitchOffCommand(item) => SwitchOnCommand(item)
      case NoCommand => NoCommand
    }

    method Execute(console: Console)
      modifies Devices(), console
      ensures Forward().Holds()
      ensures console.lines == old(console.lines) + Forward().Lines()
    {
      match this
      case SwitchOnCommand(item) => SwitchOn(item, console);
      case SwitchOffCommand(item) => SwitchOff(item, console);
      case NoCommand => console.WriteLine(NoCommandMessage);
    }

    method Undo(console: Console)
      modifies Devices(), console
      ensures Backward().Holds()
      ensures console.lines == old(console.lines) + Backward().Lines()
    {
      match this
      case SwitchOnCommand(item) => SwitchOff(item, console);
      case SwitchOffCommand(item) => SwitchOn(item, console);
      case NoCommand => console.WriteLine(NoCommandMessage);
    }
  }

  /** `SwitchCommand.SwitchOn`: switch the device on unless it is null. */
  method SwitchOn(item: Device?, console: Console)
    modifies Switch(item, true).Devices(), console
    ensures Switch(item, true).Holds()
    ensures console.lines == old(console.lines) + Switch(item, true).Lines()
  {
    if item != null {
      item.On(console);
    }
  }

  /** `SwitchCommand.SwitchOff`: switch the device off unless it is null. */
  method SwitchOff(item: Device?, console: Console)
    modifies Switch(item, false).Devices(), console
    ensures Switch(item, false).Holds()
    ensures console.lines == old(console.lines) + Switch(item, false).Lines()
  {
    if item != null {
      item.Off(console);
    }
  }

  /** The state `device` is in after `action`, given the state it was in before. */
  function StateAfter(action: Action, device: Device, before: bool): (after: bool)
    ensures device in action.Devices() ==> after == action.on
    ensures device !in action.Devices() ==> after == before
  {
    if action.Switch? && action.item == device then action.on else before
  }

  /** Undo right after Execute puts a switch command's device in the opposite
      of Execute's state whatever it was before, so it restores the earlier
      state exactly when the device was already in that opposite state;
      every other device keeps its state. */
  lemma StateAfterExecuteThenUndo(command: Command, device: Device, before: bool)
    ensures var after := StateAfter(command.Backward(), device, StateAfter(command.Forward(), device, before));
      && (command.SwitchOnCommand? && command.item == device ==> !after)
      && (command.SwitchOffCommand? && command.item == device ==> after)
      && (after == before <==> device !in command.Devices() || before == command.Backward().on)
  {
  }

  /** `Execute` and then `Undo` on the same command: any device ends in the
      state `StateAfter` gives for the two actions in turn, and the console
      gets Execute's lines followed by Undo's. */
  method ExecuteThenUndo(command: Command, console: Console, device: Device)
    modifies command.Devices(), console
    ensures device.state == StateAfter(command.Backward(), device, StateAfter(command.Forward(), device, old(device.state)))
    ensures console.lines == old(console.lines) + command.Forward().Lines() + command.Backward().Lines()
  {
    command.Execute(console);
    command.Undo(console);
  }
}
