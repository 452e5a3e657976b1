/** The process's standard output. Every `Console.WriteLine` of the program
    becomes an append to `lines`, so the order of messages can be stated. */
module Output {

  class Console {
    /** Every line written so far, oldest first. */
    var lines: seq<string>

    constructor ()
      ensures lines == []
    {
      lines := [];
    }

    method WriteLine(line: string)
      modifies this
      ensures lines == old(lines) + [line]
    {
      lines := lines + [line];
    }
  }
}
