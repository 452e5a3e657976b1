/** `SimpleRemoteControl`: two fixed rows of command slots (on-buttons and
    off-buttons) and the command that the undo button reverses.

    The first half is the specification: the remote's state as a value,
    `RemoteState`, and what each public operation (an `Event`) does to it and
    which command it fires. The second half is the class, whose methods
    are proved against that specification. */
module Remote {
  import opened Output
  import opened Devices
  import opened Commands

  /** The length of both slot arrays, fixed at construction. */
  const SlotCount := 2

  /** A null `Command` argument of the source is `None`. */
  datatype Option<T> = None | Some(value: T)

  /** The dispatcher's state: on-slots, off-slots and `UndoCommand`. */
  datatype RemoteState = RemoteState(on: seq<Command>, off: seq<Command>, last: Command)

  /** The calls a client makes, with the index as passed (never negative). */
  datatype Event =
    | SetOn(index: nat, slot: Option<Command>)
    | SetOff(index: nat, slot: Option<Command>)
    | PressOn(index: nat)
    | PressOff(index: nat)
    | Undo

  /** One `Execute` or `Undo` call made on a command by the remote. */
  datatype Invocation = Executed(command: Command) | Undone(command: Command)
  {
    function Action(): Action
    {
      match this
      case Executed(command) => command.Forward()
      case Undone(command) => command.Backward()
    }
  }

  ghost predicate WellFormed(r: RemoteState)
  {
    |r.on| == SlotCount && |r.off| == SlotCount
  }

  /** The state right after construction: every slot and the undo command
      hold the null object. */
  function Init(): (r: RemoteState)
    ensures WellFormed(r)
    ensures forall i :: 0 <= i < SlotCount ==> r.on[i] == NoCommand && r.off[i] == NoCommand
    ensures r.last == NoCommand
  {
    RemoteState([NoCommand, NoCommand], [NoCommand, NoCommand], NoCommand)
  }

  /** The state after one event. Note that `SetOff` is guarded by the length
      of the ON-slots, as in the source; it is safe because both rows have
      the same length. */
  function Next(r: RemoteState, e: Event): (r': RemoteState)
    requires WellFormed(r)
    ensures WellFormed(r')
  {
    match e
    case SetOn(i, slot) =>
      if i < |r.on| && slot.Some? then r.(on := r.on[i := slot.value]) else r
    case SetOff(i, slot) =>
      if i < |r.on| && slot.Some? then r.(off := r.off[i := slot.value]) else r
    case PressOn(i) => if i < |r.on| then r.(last := r.on[i]) else r
    case PressOff(i) => if i < |r.off| then r.(last := r.off[i]) else r
    case Undo => r
  }

  /** The command calls one event makes, in order. */
  function Fired(r: RemoteState, e: Event): (fired: seq<Invocation>)
    requires WellFormed(r)
    ensures |fired| <= 1
    ensures fired == [] <==> e.SetOn? || e.SetOff? || ((e.PressOn? || e.PressOff?) && e.index >= SlotCount)
    ensures forall inv <- fired :: inv.Undone? <==> e.Undo?
  {
    match e
    case SetOn(_, _) => []
    case SetOff(_, _) => []
    case PressOn(i) => if i < |r.on| then [Executed(r.on[i])] else []
    case PressOff(i) => if i < |r.off| then [Executed(r.off[i])] else []
    case Undo => [Undone(r.last)]
  }

  /** The state after a sequence of events. */
  function Run(r: RemoteState, events: seq<Event>): (r': RemoteState)
    requires WellFormed(r)
    ensures WellFormed(r')
    decreases |events|
  {
    if events == [] then r else Run(Next(r, events[0]), events[1..])
  }

  /** The command calls a sequence of events makes, in order. */
  function Trace(r: RemoteState, events: seq<Event>): (trace: seq<Invocation>)
    requires WellFormed(r)
    ensures |trace| <= |events|
    ensures |trace| == |events| ==> forall k :: 0 <= k < |events| ==> !events[k].SetOn? && !events[k].SetOff?
    decreases |events|
  {
    if events == [] then [] else Fired(r, events[0]) + Trace(Next(r, events[0]), events[1..])
  }

  /** The console lines a sequence of command calls writes. */
  function Lines(trace: seq<Invocation>): seq<string>
  {
    if trace == [] then [] else trace[0].Action().Lines() + Lines(trace[1..])
  }

  /** The command most recently executed in `trace`, or `initial` if none was. */
  function LastExecuted(trace: seq<Invocation>, initial: Command): Command
  {
    if trace == [] then initial
    else LastExecuted(trace[1..], if trace[0].Executed? then trace[0].command else initial)
  }

  /** Running two sequences of events one after the other is running their
      concatenation. */
  lemma {:induction false} RunAppend(r: RemoteState, first: seq<Event>, second: seq<Event>)
    requires WellFormed(r)
    ensures Run(r, first + second) == Run(Run(r, first), second)
    ensures Trace(r, first + second) == Trace(r, first) + Trace(Run(r, first), second)
    decreases |first|
  {
    if first == [] {
      assert first + second == second;
    } else {
      RunAppend(Next(r, first[0]), first[1..], second);
      assert (first + second)[0] == first[0] && (first + second)[1..] == first[1..] + second;
    }
  }

  /** A slot setter with a valid index and a non-null command replaces exactly
      that slot; every other slot and the undo command stay as they were. */
  lemma SetReplacesOnlyThatSlot(r: RemoteState, i: nat, c: Command)
    requires WellFormed(r) && i < SlotCount
    ensures var r' := Next(r, SetOn(i, Some(c)));
      r'.on[i] == c && r'.off == r.off && r'.last == r.last &&
      forall j :: 0 <= j < SlotCount && j != i ==> r'.on[j] == r.on[j]
    ensures var r' := Next(r, SetOff(i, Some(c)));
      r'.off[i] == c && r'.on == r.on && r'.last == r.last &&
      forall j :: 0 <= j < SlotCount && j != i ==> r'.off[j] == r.off[j]
    ensures Fired(r, SetOn(i, Some(c))) == [] && Fired(r, SetOff(i, Some(c))) == []
  {
  }

  /** A slot setter with an index past the end or a null command changes nothing. */
  lemma RejectedSetChangesNothing(r: RemoteState, e: Event)
    requires WellFormed(r)
    requires e.SetOn? || e.SetOff?
    requires e.index >= SlotCount || e.slot.None?
    ensures Next(r, e) == r && Fired(r, e) == []
  {
  }

  /** A press with a valid index executes that slot's command exactly once
      and records it for undo; no slot changes. */
  lemma PressExecutesSlot(r: RemoteState, i: nat)
    requires WellFormed(r) && i < SlotCount
    ensures Fired(r, PressOn(i)) == [Executed(r.on[i])] && Next(r, PressOn(i)) == r.(last := r.on[i])
    ensures Fired(r, PressOff(i)) == [Executed(r.off[i])] && Next(r, PressOff(i)) == r.(last := r.off[i])
  {
  }

  /** A press with an index past the end executes nothing and changes nothing. */
  lemma OutOfRangePressChangesNothing(r: RemoteState, i: nat)
    requires WellFormed(r) && i >= SlotCount
    ensures Next(r, PressOn(i)) == r && Fired(r, PressOn(i)) == []
    ensures Next(r, PressOff(i)) == r && Fired(r, PressOff(i)) == []
  {
  }

  /** Undo before any press only reverses the null object: it writes
      "No command" and switches no device. */
  lemma UndoBeforeAnyPress()
    ensures Fired(Init(), Undo) == [Undone(NoCommand)]
    ensures Lines(Fired(Init(), Undo)) == [NoCommandMessage]
    ensures Fired(Init(), Undo)[0].Action().Devices() == {}
  {
  }

  /** After `SetOn(i, c)`, pressing on-button `i` executes exactly `c` once
      and makes `c` the undo target. */
  lemma SetOnThenPress(r: RemoteState, i: nat, c: Command)
    requires WellFormed(r) && i < SlotCount
    ensures Trace(r, [SetOn(i, Some(c)), PressOn(i)]) == [Executed(c)]
    ensures Run(r, [SetOn(i, Some(c)), PressOn(i)]).last == c
  {
    var events := [SetOn(i, Some(c)), PressOn(i)];
    var r1 := Next(r, events[0]);
    assert r1.on[i] == c;
    assert events[1..] == [PressOn(i)] && events[1..][1..] == [];
    assert Trace(r1, events[1..]) == [Executed(c)] + Trace(Next(r1, PressOn(i)), []);
    assert Run(r1, events[1..]) == Run(Next(r1, PressOn(i)), []);
  }

  /** The same for the off-row: after `SetOff(i, c)`, pressing off-button `i`
      executes exactly `c` once and makes it the undo target. */
  lemma SetOffThenPress(r: RemoteState, i: nat, c: Command)
    requires WellFormed(r) && i < SlotCount
    ensures Trace(r, [SetOff(i, Some(c)), PressOff(i)]) == [Executed(c)]
    ensures Run(r, [SetOff(i, Some(c)), PressOff(i)]).last == c
  {
    var events := [SetOff(i, Some(c)), PressOff(i)];
    var r1 := Next(r, events[0]);
    assert r1.off[i] == c;
    assert events[1..] == [PressOff(i)] && events[1..][1..] == [];
    assert Trace(r1, events[1..]) == [Executed(c)] + Trace(Next(r1, PressOff(i)), []);
    assert Run(r1, events[1..]) == Run(Next(r1, PressOff(i)), []);
  }

  /** `n` undo presses in a row. */
  function Undos(n: nat): (events: seq<Event>)
    ensures |events| == n && forall k :: 0 <= k < n ==> events[k] == Undo
  {
    if n == 0 then [] else [Undo] + Undos(n - 1)
  }

  /** Undo never changes a slot or the undo command, so repeated undos
      repeat the same inverse action. */
  lemma {:induction false} RepeatedUndo(r: RemoteState, n: nat)
    requires WellFormed(r)
    ensures Run(r, Undos(n)) == r
    ensures Trace(r, Undos(n)) == seq(n, _ => Undone(r.last))
  {
    if n > 0 {
      RepeatedUndo(r, n - 1);
      assert Undos(n)[1..] == Undos(n - 1);
      assert [Undone(r.last)] + seq(n - 1, _ => Undone(r.last)) == seq(n, _ => Undone(r.last));
    }
  }

  /** A slot that no event sets keeps its command; in particular a slot never
      set after construction still holds the null object. */
  lemma {:induction false} UnsetSlotKeepsCommand(r: RemoteState, events: seq<Event>, i: nat)
    requires WellFormed(r) && i < SlotCount
    ensures (forall k :: 0 <= k < |events| ==> !(events[k].SetOn? && events[k].index == i))
      ==> Run(r, events).on[i] == r.on[i]
    ensures (forall k :: 0 <= k < |events| ==> !(events[k].SetOff? && events[k].index == i))
      ==> Run(r, events).off[i] == r.off[i]
    decreases |events|
  {
    if events != [] {
      UnsetSlotKeepsCommand(Next(r, events[0]), events[1..], i);
      forall k | 0 <= k < |events| - 1 ensures events[1..][k] == events[k + 1] { }
    }
  }

  /** Pressing an on-button whose slot was never set writes "No command",
      switches nothing and leaves the null object as the undo target when
      it was before. */
  lemma UnsetSlotIsNullObject(events: seq<Event>, i: nat)
    requires i < SlotCount
    requires forall k :: 0 <= k < |events| ==> !(events[k].SetOn? && events[k].index == i)
    ensures Fired(Run(Init(), events), PressOn(i)) == [Executed(NoCommand)]
    ensures Lines(Fired(Run(Init(), events), PressOn(i))) == [NoCommandMessage]
    ensures Next(Run(Init(), events), PressOn(i)).last == NoCommand
  {
    UnsetSlotKeepsCommand(Init(), events, i);
  }

  /** The same for the off-row: pressing an off-button whose slot was never
      set writes "No command", switches nothing and leaves the null object
      as the undo target when it was before. */
  lemma UnsetOffSlotIsNullObject(events: seq<Event>, i: nat)
    requires i < SlotCount
    requires forall k :: 0 <= k < |events| ==> !(events[k].SetOff? && events[k].index == i)
    ensures Fired(Run(Init(), events), PressOff(i)) == [Executed(NoCommand)]
    ensures Lines(Fired(Run(Init(), events), PressOff(i))) == [NoCommandMessage]
    ensures Next(Run(Init(), events), PressOff(i)).last == NoCommand
  {
    UnsetSlotKeepsCommand(Init(), events, i);
  }

  /** The undo command is always the command most recently executed by a
      press, or what it was before if no press executed anything. */
  lemma {:induction false} UndoTargetIsLastExecuted(r: RemoteState, events: seq<Event>)
    requires WellFormed(r)
    ensures Run(r, events).last == LastExecuted(Trace(r, events), r.last)
    decreases |events|
  {
    if events != [] {
      var r1 := Next(r, events[0]);
      var fired, rest := Fired(r, events[0]), Trace(r1, events[1..]);
      UndoTargetIsLastExecuted(r1, events[1..]);
      if fired == [] {
        assert Trace(r, events) == rest;
      } else {
        assert (fired + rest)[1..] == rest;
      }
    }
  }

  /** The lines an event's command calls write: those of the pressed slot's
      `Execute`, of the undo command's `Undo`, or none. */
  lemma FiredLines(r: RemoteState, i: nat)
    requires WellFormed(r)
    ensures Lines(Fired(r, PressOn(i))) == if i < SlotCount then r.on[i].Forward().Lines() else []
    ensures Lines(Fired(r, PressOff(i))) == if i < SlotCount then r.off[i].Forward().Lines() else []
    ensures Lines(Fired(r, Undo)) == r.last.Backward().Lines()
  {
  }

  class SimpleRemoteControl {
    var onSlots: array<Command>
    var offSlots: array<Command>
    var undoCommand: Command

    /** Two distinct slot arrays of the fixed length. */
    ghost predicate Valid()
      reads this
    {
      onSlots != offSlots && onSlots.Length == SlotCount && offSlots.Length == SlotCount
    }

    /** The dispatcher's state as a value. */
    ghost function Model(): (r: RemoteState)
      reads this, onSlots, offSlots
      ensures Valid() ==> WellFormed(r)
    {
      RemoteState(onSlots[..], offSlots[..], undoCommand)
    }

    /** Both rows filled with the null object, which is also the undo command. */
    constructor ()
      ensures Valid() && fresh(onSlots) && fresh(offSlots)
      ensures Model() == Init()
    {
      undoCommand := NoCommand;
      var on := new Command[SlotCount];
      var off := new Command[SlotCount];
      for i := 0 to on.Length
        modifies on
        invariant forall j :: 0 <= j < i ==> on[j] == NoCommand
      {
        on[i] := NoCommand;
      }
      for i := 0 to off.Length
        modifies off
        invariant forall j :: 0 <= j < i ==> off[j] == NoCommand
      {
        off[i] := NoCommand;
      }
      onSlots, offSlots := on, off;
      assert on[..] == [on[0], on[1]] && off[..] == [off[0], off[1]];
      assert on[..] == Init().on && off[..] == Init().off;
    }

    /** Bind `slot` to on-button `index`, unless the index is past the end or
        the command is null, in which case nothing happens. A negative index
        with a non-null command would throw, so callers must not pass one. */
    method SetOnSlot(index: int, slot: Option<Command>)
      requires Valid() && (0 <= index || slot.None?)
      modifies onSlots
      ensures Valid()
      ensures Model() == if index < 0 then old(Model()) else Next(old(Model()), SetOn(index, slot))
    {
      if index < onSlots.Length && slot != None {
        onSlots[index] := slot.value;
      }
    }

    /** Bind `slot` to off-button `index`; the bound is checked against the
        on-slots, which have the same length. As for `SetOnSlot`, a negative
        index is allowed only with a null command, which does nothing. */
    method SetOffSlot(index: int, slot: Option<Command>)
      requires Valid() && (0 <= index || slot.None?)
      modifies offSlots
      ensures Valid()
      ensures Model() == if index < 0 then old(Model()) else Next(old(Model()), SetOff(index, slot))
    {
      if index < onSlots.Length && slot != None {
        offSlots[index] := slot.value;
      }
    }

    /** Execute the command of on-button `index` and remember it for undo;
        an index past the end does nothing. */
    method OnButtonWasPressed(index: int, console: Console)
      requires Valid() && 0 <= index
      modifies this`undoCommand, console, if index < onSlots.Length then onSlots[index].Devices() else {}
      ensures Valid()
      ensures Model() == Next(old(Model()), PressOn(index))
      ensures console.lines == old(console.lines) + if index < SlotCount then old(onSlots[index]).Forward().Lines() else []
      ensures index < SlotCount ==> old(onSlots[index]).Forward().Holds()
    {
      if index < onSlots.Length {
        onSlots[index].Execute(console);
        undoCommand := onSlots[index];
      }
    }

    /** Execute the command of off-button `index` and remember it for undo;
        an index past the end does nothing. */
    method OffButtonWasPressed(index: int, console: Console)
      requires Valid() && 0 <= index
      modifies this`undoCommand, console, if index < offSlots.Length then offSlots[index].Devices() else {}
      ensures Valid()
      ensures Model() == Next(old(Model()), PressOff(index))
      ensures console.lines == old(console.lines) + if index < SlotCount then old(offSlots[index]).Forward().Lines() else []
      ensures index < SlotCount ==> old(offSlots[index]).Forward().Holds()
    {
      if index < offSlots.Length {
        offSlots[index].Execute(console);
        undoCommand := offSlots[index];
      }
    }

    /** Undo the command last executed by a button, or the null object if
        none was; the slots and the undo command stay as they are. */
    method UndoButtonWasPushed(console: Console)
      requires Valid()
      modifies console, undoCommand.Devices()
      ensures Valid()
      ensures Model() == Next(old(Model()), Undo)
      ensures console.lines == old(console.lines) + old(undoCommand).Backward().Lines()
      ensures old(undoCommand).Backward().Holds()
    {
      undoCommand.Undo(console);
    }
  }
}
