/** The wiring in `Main`: a light and a door behind slots 0 and 1, the four
    buttons pressed in order, then undo. */
module Scenario {
  import opened Output
  import opened Devices
  import opened Commands
  import opened Remote

  /** The slot-setting calls of `Main`. */
  function DemoWiring(light: Device, door: Device): seq<Event>
  {
    [ SetOn(0, Some(SwitchOnCommand(light))), SetOff(0, Some(SwitchOffCommand(light))),
      SetOn(1, Some(SwitchOnCommand(door))), SetOff(1, Some(SwitchOffCommand(door))) ]
  }

  /** The button presses of `Main`. */
  const DemoPresses: seq<Event> := [PressOn(0), PressOn(1), PressOff(0), PressOff(1), Undo]

  /** The calls `Main` makes on the remote, in order. */
  function DemoEvents(light: Device, door: Device): seq<Event>
  {
    DemoWiring(light, door) + DemoPresses
  }

  /** The remote's state once `Main` has set its slots. */
  function DemoRemote(light: Device, door: Device): RemoteState
  {
    RemoteState([SwitchOnCommand(light), SwitchOnCommand(door)],
           [SwitchOffCommand(light), SwitchOffCommand(door)], NoCommand)
  }

  /** One step of `Trace` and `Run` on a suffix of the events. */
  lemma Unfold(r: RemoteState, events: seq<Event>, k: nat)
    requires WellFormed(r) && k < |events|
    ensures Trace(r, events[k..]) == Fired(r, events[k]) + Trace(Next(r, events[k]), events[k + 1..])
    ensures Run(r, events[k..]) == Run(Next(r, events[k]), events[k + 1..])
  {
  }

  /** Setting the four slots fills both rows and fires no command. */
  lemma DemoWiringEffect(light: Device, door: Device)
    ensures Run(Init(), DemoWiring(light, door)) == DemoRemote(light, door)
    ensures Trace(Init(), DemoWiring(light, door)) == []
  {
    var e := DemoWiring(light, door);
    var r0 := Init();
    var r1 := Next(r0, e[0]);
    var r2 := Next(r1, e[1]);
    var r3 := Next(r2, e[2]);
    Unfold(r0, e, 0); Unfold(r1, e, 1); Unfold(r2, e, 2); Unfold(r3, e, 3);
    assert e[0..] == e && e[4..] == [];
  }

  /** On the wired remote the presses execute the four bound commands in
      order, then undo the last one. */
  lemma DemoPressesEffect(light: Device, door: Device)
    ensures Trace(DemoRemote(light, door), DemoPresses) ==
      [ Executed(SwitchOnCommand(light)), Executed(SwitchOnCommand(door)),
        Executed(SwitchOffCommand(light)), Executed(SwitchOffCommand(door)),
        Undone(SwitchOffCommand(door)) ]
  {
  }

  /** The demo executes the four bound commands in press order and then
      undoes the last one, the door's switch-off command, which opens the door. */
  lemma DemoTrace(light: Device, door: Device)
    ensures Trace(Init(), DemoEvents(light, door)) ==
      [ Executed(SwitchOnCommand(light)), Executed(SwitchOnCommand(door)),
        Executed(SwitchOffCommand(light)), Executed(SwitchOffCommand(door)),
        Undone(SwitchOffCommand(door)) ]
  {
    RunAppend(Init(), DemoWiring(light, door), DemoPresses);
    DemoWiringEffect(light, door);
    DemoPressesEffect(light, door);
  }

  /** What the demo's command calls write: the last line is "Open door!",
      because undoing the door's switch-off command switches the door on. */
  lemma DemoLines(light: Device, door: Device)
    requires light.kind == Light && door.kind == Door
    ensures Lines(Trace(Init(), DemoEvents(light, door))) ==
      ["Turn on light!", "Open door!", "Turn off light!", "Closed door!", "Open door!"]
  {
    DemoTrace(light, door);
    var t := Trace(Init(), DemoEvents(light, door));
    assert t[4..][1..] == [];
    assert Lines(t[4..]) == ["Open door!"];
    assert t[3..][1..] == t[4..];
    assert Lines(t[3..]) == ["Closed door!", "Open door!"];
    assert t[2..][1..] == t[3..];
    assert Lines(t[2..]) == ["Turn off light!", "Closed door!", "Open door!"];
    assert t[1..][1..] == t[2..];
    assert Lines(t[1..]) == ["Open door!", "Turn off light!", "Closed door!", "Open door!"];
  }

  /** The wiring `Main` sets up: slot 0 drives the light, slot 1 the door,
      and nothing has been pressed yet. */
  ghost predicate Wired(remote: SimpleRemoteControl, light: Device, door: Device)
    reads remote, remote.onSlots, remote.offSlots
  {
    && remote.Valid()
    && remote.Model() == DemoRemote(light, door)
  }

  /** The button presses of `Main` on a wired remote: the console shows the
      five messages in order, the light ends off and the door open. */
  method PressButtons(remote: SimpleRemoteControl, console: Console, light: Device, door: Device)
    requires Wired(remote, light, door) && light != door
    requires light.kind == Light && door.kind == Door
    modifies remote, console, light, door
    ensures console.lines == old(console.lines) +
      ["Turn on light!", "Open door!", "Turn off light!", "Closed door!", "Open door!"]
    ensures !light.state && door.state
  {
    remote.OnButtonWasPressed(0, console);
    remote.OnButtonWasPressed(1, console);
    remote.OffButtonWasPressed(0, console);
    remote.OffButtonWasPressed(1, console);
    remote.UndoButtonWasPushed(console);
  }

  /** `Main` as a client of the model: the console shows the five messages in
      order, and at the end the light is off and the door is open. */
  method Demo() returns (lines: seq<string>, lightOn: bool, doorOn: bool)
    ensures lines == ["Turn on light!", "Open door!", "Turn off light!", "Closed door!", "Open door!"]
    ensures !lightOn && doorOn
  {
    var console := new Console();
    var remote := new SimpleRemoteControl();

    var light := new Device(Light);
    var switchOnLight := SwitchOnCommand(light);
    var switchOffLight := SwitchOffCommand(light);
    var door := new Device(Door);
    var openDoor := SwitchOnCommand(door);
    var closeDoor := SwitchOffCommand(door);

    remote.SetOnSlot(0, Some(switchOnLight));
    remote.SetOffSlot(0, Some(switchOffLight));
    remote.SetOnSlot(1, Some(openDoor));
    remote.SetOffSlot(1, Some(closeDoor));
    PressButtons(remote, console, light, door);

    lines, lightOn, doorOn := console.lines, light.state, door.state;
  }
}
