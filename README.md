# Command pattern remote control, modelled in Dafny

This project models `CommandPattern/Program.cs`, a textbook illustration of
the Command design pattern: a remote control with two on-buttons, two
off-buttons and an undo button. The buttons dispatch to commands that switch
a light or a door on or off.

- `output.dfy` (module `Output`): `Console.WriteLine` becomes an append to the
  `lines` sequence of a `Console` object. Every device and command operation
  takes the console as a parameter, so the order of the messages can be
  stated.
- `devices.dfy` (module `Devices`): `Light` and `Door` are one class,
  `Device`. A constant `kind` selects the messages, and the class has the
  boolean field `state`, which stands for the source's private `State`. `On` sets the state and `Off` clears it, and each
  writes its fixed message.
- `commands.dfy` (module `Commands`): `SwitchOnCommand`, `SwitchOffCommand`
  and the null object `NoCommand` form one closed datatype. A switch command
  holds a possibly-null device reference. `Execute` and `Undo` are methods
  that change the bound device and the console. They go through `SwitchOn`
  and `SwitchOff`, the null-checking helpers of `SwitchCommand`. Two pure
  functions, `Forward` and `Backward`, say what each call does as an
  `Action`. `Inverse` is the command whose `Execute` is this one's `Undo`.
- `remote.dfy` (module `Remote`): `SimpleRemoteControl`. First comes its
  specification, which is pure:
  - `RemoteState` is the state as a value: the on-slots, the off-slots and the
    undo command.
  - `Event` is one public call.
  - `Next` gives the new state after an event, and `Fired` gives the
    command calls the event makes.
  - `Run` and `Trace` extend these to sequences of calls.

  Then comes the class, with the two slot arrays and the undo command as
  fields. Its constructor fills the arrays with `for` loops, as the source
  does. Each method is proved to move `Model()` exactly as `Next` says. It
  also states what it writes to the console and the state it leaves the
  switched device in.
- `scenario.dfy` (module `Scenario`): the wiring and button presses of `Main`,
  as a pure trace and as an imperative client.

The source's null `Command` argument is `None` of an `Option`. A slot index
is a C# `int` that is only bounded above. A negative index makes a press
throw `IndexOutOfRangeException`, and so does a setter given a non-null
command. A setter given a negative index and a null command fails its
`slot != null` test and does nothing. So the press methods require
`0 <= index`, and the setters require `0 <= index || slot.None?` and
promise that this no-op leaves the state unchanged.
`SetOffSlot` checks its index against the length of the ON-slots, as the
source does. This is harmless only because both rows have length 2. `Next`
keeps the same guard, and the constructor establishes the equal lengths,
which `Valid()` then keeps.

In the demo, the last line written is "Open door!". The undo target is the
door's `SwitchOffCommand`, and its `Undo` switches the door on. Execute
followed by Undo does not restore an arbitrary earlier state. It
always leaves the device in the opposite of Execute's state. So the earlier
state comes back exactly when the device was already in that opposite state
(`StateAfterExecuteThenUndo`, applied to the real
operations by the method `ExecuteThenUndo`).

## Model

| member | source | states |
|---|---|---|
| Devices.Device.constructor | CommandPattern/Program.cs:47-49 | a new `Light` or `Door` has the given kind and starts switched off (the C# default of `State`) |
| Devices.Device.On | CommandPattern/Program.cs:51-55 | `On` leaves the device on and writes exactly one line: "Turn on light!" for a light, "Open door!" for a door (lines 68-72) |
| Devices.Device.Off | CommandPattern/Program.cs:57-61 | `Off` leaves the device off and writes exactly one line: "Turn off light!" for a light, "Closed door!" for a door (lines 74-78) |
| Commands.Action.Lines | CommandPattern/Program.cs:90-104 | one command call writes at most one line, and writes none exactly when it is a switch on a null device |
| Commands.SwitchOn | CommandPattern/Program.cs:90-96 | a non-null device ends up on with its on-message written; a null device means no device changes and nothing is written |
| Commands.SwitchOff | CommandPattern/Program.cs:98-104 | a non-null device ends up off with its off-message written; a null device means no device changes and nothing is written |
| Commands.Command.Execute | CommandPattern/Program.cs:107-142 | `SwitchOnCommand` leaves its device on and `SwitchOffCommand` leaves it off, each writing that device's message. `NoCommand` writes "No command" and changes no device. Only the bound device can change |
| Commands.Command.Undo | CommandPattern/Program.cs:116-147 | the hard-coded opposite: `SwitchOnCommand.Undo` leaves its device off and `SwitchOffCommand.Undo` leaves it on. `NoCommand` writes "No command" again. Only the bound device can change |
| Commands.Command.Inverse | CommandPattern/Program.cs:107-134 | swapping on and off gives, for the same device, a command whose Execute is this command's Undo and whose Undo is its Execute |
| Commands.Command.Forward | CommandPattern/Program.cs:111-142 | what `Execute` does: it switches the bound device on for `SwitchOnCommand` and off for `SwitchOffCommand`. `NoCommand` only announces. The action reaches exactly the command's device |
| Commands.Command.Backward | CommandPattern/Program.cs:116-147 | what `Undo` does: it switches the bound device off for `SwitchOnCommand` and on for `SwitchOffCommand`, always the opposite of `Execute`. `NoCommand` only announces. The action reaches exactly the command's device |
| Commands.StateAfter | CommandPattern/Program.cs:51-77 | a device an action switches ends in the action's target state (lines 53, 59, 70, 76); any other device keeps its state |
| Commands.StateAfterExecuteThenUndo | CommandPattern/Program.cs:111-134 | Execute then Undo leaves a switch command's device off (SwitchOn) or on (SwitchOff) whatever it was before. So it restores the earlier state exactly when that state was Undo's target; other devices keep their state |
| Commands.ExecuteThenUndo | CommandPattern/Program.cs:107-134 | calling the command's `Execute` and then its `Undo` leaves every device in the state `StateAfter` gives for the two actions in turn, and writes Execute's lines followed by Undo's |
| Remote.Init | CommandPattern/Program.cs:154-170 | after construction both rows have length 2, every slot holds `NoCommand` and the undo command is `NoCommand` |
| Remote.Next | CommandPattern/Program.cs:172-209 | every operation keeps both rows at the fixed length |
| Remote.Fired | CommandPattern/Program.cs:188-209 | each public call makes at most one command call. Setters and out-of-range presses make none, an in-range press makes one `Execute` and undo makes one `Undo` |
| Remote.Run | CommandPattern/Program.cs:152-159 | the slot arrays are never resized, whatever sequence of operations is applied |
| Remote.Trace | CommandPattern/Program.cs:172-209 | a sequence of calls makes at most one command call per public call, and one for every call only if no call was a setter |
| Remote.RunAppend | CommandPattern/Program.cs:172-209 | the operations compose: running two call sequences one after the other gives the same state and the same command calls as running their concatenation |
| Remote.SetReplacesOnlyThatSlot | CommandPattern/Program.cs:172-186 | a setter with an in-range index and a non-null command replaces exactly that slot. The other slot of the row, the other row and the undo command are unchanged, and no command runs |
| Remote.RejectedSetChangesNothing | CommandPattern/Program.cs:172-186 | a setter with an index past the end or a null command changes nothing at all and runs no command |
| Remote.PressExecutesSlot | CommandPattern/Program.cs:188-204 | an in-range press executes that slot's command exactly once, makes it the undo command and changes no slot |
| Remote.OutOfRangePressChangesNothing | CommandPattern/Program.cs:188-204 | a press past the end runs no command and changes neither the slots nor the undo command |
| Remote.UndoBeforeAnyPress | CommandPattern/Program.cs:206-209 | undo on a fresh remote undoes the null object: it writes only "No command" and switches no device |
| Remote.SetOnThenPress | CommandPattern/Program.cs:172-195 | after `SetOnSlot(i, c)`, pressing on-button `i` executes exactly `c` once and makes `c` the undo target |
| Remote.SetOffThenPress | CommandPattern/Program.cs:180-204 | after `SetOffSlot(i, c)`, pressing off-button `i` executes exactly `c` once and makes `c` the undo target |
| Remote.RepeatedUndo | CommandPattern/Program.cs:206-209 | any number of undos leaves slots and undo command unchanged and makes that many `Undo` calls on the same command |
| Remote.UnsetSlotKeepsCommand | CommandPattern/Program.cs:172-186 | a slot that no call sets keeps its command through any sequence of operations |
| Remote.UnsetSlotIsNullObject | CommandPattern/Program.cs:161-169 | pressing a never-set on-button, after any sequence of calls, executes the null object. It writes "No command" and leaves the undo command `NoCommand` |
| Remote.UnsetOffSlotIsNullObject | CommandPattern/Program.cs:166-169 | pressing a never-set off-button, after any sequence of calls, executes the null object. It writes "No command" and leaves the undo command `NoCommand` |
| Remote.UndoTargetIsLastExecuted | CommandPattern/Program.cs:188-204 | after any sequence of calls, the undo command is the most recently executed command, or the initial one if no press executed anything |
| Remote.FiredLines | CommandPattern/Program.cs:188-209 | the lines of a press's command calls are the pressed slot's `Execute` lines, or none past the end. Undo's are the undo command's `Undo` lines |
| Remote.SimpleRemoteControl.constructor | CommandPattern/Program.cs:152-170 | the constructor's loops leave two distinct fresh arrays of length 2 full of `NoCommand` and the undo command `NoCommand` (the state `Init`) |
| Remote.SimpleRemoteControl.SetOnSlot | CommandPattern/Program.cs:172-178 | the on-row changes exactly as `Next` says. A negative index with a null command changes nothing. The off-row and the undo command cannot change |
| Remote.SimpleRemoteControl.SetOffSlot | CommandPattern/Program.cs:180-186 | the off-row changes exactly as `Next` says, with the bound checked against the on-row. A negative index with a null command changes nothing. The on-row and the undo command cannot change |
| Remote.SimpleRemoteControl.OnButtonWasPressed | CommandPattern/Program.cs:188-195 | only the undo command changes, as `Next` says. The console gets exactly that slot's `Execute` lines, and its device is in `Execute`'s state. Out of range, no device, line or field changes |
| Remote.SimpleRemoteControl.OffButtonWasPressed | CommandPattern/Program.cs:197-204 | only the undo command changes, as `Next` says. The console gets exactly that slot's `Execute` lines, and its device is in `Execute`'s state. Out of range, no device, line or field changes |
| Remote.SimpleRemoteControl.UndoButtonWasPushed | CommandPattern/Program.cs:206-209 | no slot and not the undo command changes. The console gets exactly the undo command's `Undo` lines, and only its device changes, to `Undo`'s state |
| Scenario.DemoWiringEffect | CommandPattern/Program.cs:22-25 | the four setter calls of `Main` bind slot 0 to the light's commands and slot 1 to the door's, and run no command |
| Scenario.DemoPressesEffect | CommandPattern/Program.cs:26-30 | on that wiring the presses execute on-light, on-door, off-light and off-door, then undo off-door |
| Scenario.DemoTrace | CommandPattern/Program.cs:22-30 | the whole of `Main` makes exactly those five command calls |
| Scenario.DemoLines | CommandPattern/Program.cs:22-30 | the demo's lines are exactly "Turn on light!", "Open door!", "Turn off light!", "Closed door!", "Open door!" |
| Scenario.PressButtons | CommandPattern/Program.cs:26-30 | on the wired remote the presses write those five lines in order and leave the light off and the door open |
| Scenario.Demo | CommandPattern/Program.cs:11-31 | the imperative run of `Main` writes those five lines in order and ends with the light off and the door open |

## Left out

- `Console.ReadKey` at the end of `Main` is interactive input with no logic; the `using` directives and the `Program` wrapper class carry no behaviour.
- `Console.WriteLine` is not real output: it is an append to `Console.lines`, passed to each operation as a parameter instead of a global.
- Negative slot indices that make the source throw `IndexOutOfRangeException` are excluded rather than modelled as an exception. These are any negative index to a press, and a negative index with a non-null command to a setter. A setter given a negative index and a null command is modelled as the no-op it is.
- The `Command` and `Switchable` interfaces and the abstract `SwitchCommand` base class are a closed datatype and a device kind, not a class hierarchy.
- Commands are values, not references. Two distinct C# command objects bound to the same device are equal here. Nothing can tell them apart, because commands hold no state besides the device.
