/** The switchable devices: `Light` and `Door`. Both have one private boolean
    state that `On` sets and `Off` clears, and each writes a fixed message. */
module Devices {
  import opened Output

  /** Which of the two `Switchable` implementations a device is. */
  datatype Kind = Light | Door

  /** The message `On` writes for a device of the given kind. */
  function OnMessage(kind: Kind): string
  {
    match kind
    case Light => "Turn on light!"
    case Door => "Open door!"
  }

  /** The message `Off` writes for a device of the given kind. */
  function OffMessage(kind: Kind): string
  {
    match kind
    case Light => "Turn off light!"
    case Door => "Closed door!"
  }

  /** `Light` or `Door`; the kind only decides which messages are written. */
  class Device {
    const kind: Kind
    /** `State` of the source: private there and never read by it. */
    var state: bool

    /** `new Light()` / `new Door()`: a fresh device starts switched off. */
    constructor (kind: Kind)
      ensures this.kind == kind && !state
    {
      this.kind := kind;
      state := false;
    }

    method On(console: Console)
      modifies this, console
      ensures state
      ensures console.lines == old(console.lines) + [OnMessage(kind)]
    {
      state := true;
      console.WriteLine(OnMessage(kind));
    }

    method Off(console: Console)
      modifies this, console
      ensures !state
      ensures console.lines == old(console.lines) + [OffMessage(kind)]
    {
      state := false;
      console.WriteLine(OffMessage(kind));
    }
  }
}
