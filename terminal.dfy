/**
 * The terminal line editor: keys read from standard input edit the line
 * being typed; Enter queues it, Backspace or DEL removes the last character,
 * and ESC asks the program to exit. Keys arrive as the bytes available on
 * standard input when a pass of the input loop starts; their rendering on
 * the screen is not modelled. A byte is a char below 256.
 */
module LineEditor {
  const Backspace: char := '\U{8}'
  const Delete: char := '\U{7F}'
  const Escape: char := '\U{1B}'
  const Nul: char := '\0'

  /** The bytes Terminal::getchar lets through below 0x20. */
  predicate Editing(c: char)
  {
    c == Backspace || c == '\n' || c == '\r' || c == Escape
  }

  /** getchar: control bytes other than the editing ones read as no key. */
  function FilterKey(c: char): (r: char)
    ensures r == c || r == Nul
    ensures r == Nul <==> c == Nul || (c as int <= 0x1F && !Editing(c))
  {
    if c as int <= 0x1F && !Editing(c) then Nul else c
  }

  /** A character the default branch of the switch appends: no control byte and no DEL. */
  predicate Printable(c: char)
  {
    c as int >= 0x20 && c != Delete
  }

  /** The fields of a Terminal that keys change. */
  datatype EditorState = EditorState(input: string, lines: seq<string>, exit: bool, process: bool)

  /** Every character typed is printable, and every queued line is a non-empty run of them. */
  predicate Clean(t: EditorState)
  {
    && (forall k :: 0 <= k < |t.input| ==> Printable(t.input[k]))
    && (forall j :: 0 <= j < |t.lines| ==> t.lines[j] != "" && forall k :: 0 <= k < |t.lines[j]| ==> Printable(t.lines[j][k]))
  }

  /** One key through the switch of processInput; nothing happens while input is disabled. */
  function AfterKey(t: EditorState, c: char): EditorState
  {
    if !t.process then t
    else if c == Backspace || c == Delete then
      (if |t.input| > 0 then t.(input := t.input[..|t.input| - 1]) else t)
    else if c == '\n' || c == '\r' then
      (if |t.input| > 0 then t.(lines := t.lines + [t.input], input := "") else t)
    else if c == Escape then t.(exit := true)
    else t.(input := t.input + [c])
  }

  /** The keys in order. */
  function AfterKeys(t: EditorState, keys: seq<char>): EditorState
    decreases |keys|
  {
    if keys == [] then t else AfterKeys(AfterKey(t, keys[0]), keys[1..])
  }

  /** How many keys one pass of the inner loop takes before one reads as no key: the index of the first such key. */
  function FirstBlocked(keys: seq<char>): (r: nat)
    ensures r <= |keys|
    ensures forall k :: 0 <= k < r ==> FilterKey(keys[k]) != Nul
    ensures r < |keys| ==> FilterKey(keys[r]) == Nul
  {
    if keys == [] || FilterKey(keys[0]) == Nul then 0 else 1 + FirstBlocked(keys[1..])
  }

  /** enableInput. */
  function AfterEnable(t: EditorState, enable: bool): EditorState
  {
    if enable then t.(process := true)
    else if t.process then t.(process := false, input := "")
    else t
  }

  /** getLine: the oldest queued line, or "" when there is none. */
  function AfterGetLine(t: EditorState): (r: (string, EditorState))
    ensures |t.lines| > 0 ==> r == (t.lines[0], t.(lines := t.lines[1..]))
    ensures |t.lines| == 0 ==> r == ("", t)
  {
    if |t.lines| > 0 then (t.lines[0], t.(lines := t.lines[1..])) else ("", t)
  }

  class Terminal {
    var input: string
    var lines: seq<string>
    var exit: bool
    var process: bool

    function State(): EditorState
      reads this
    {
      EditorState(input, lines, exit, process)
    }

    /** Terminal(label): input starts disabled; the exit flag starts clear. */
    constructor ()
      ensures State() == EditorState("", [], false, false)
    {
      input, lines, exit, process := "", [], false, false;
    }

    /** The per-key switch of processInput. */
    method ProcessKey(c: char)
      modifies this
      ensures State() == AfterKey(old(State()), c)
    {
      if process {
        if c == Backspace || c == Delete {
          if |input| > 0 {
            input := input[..|input| - 1];
          }
        } else if c == '\n' || c == '\r' {
          if |input| > 0 {
            lines := lines + [input];
            input := "";
          }
        } else if c == Escape {
          exit := true;
        } else {
          input := input + [c];
        }
      }
    }

    /**
     * One pass of the inner loop of processInput over the bytes waiting on
     * standard input: keys are taken until one reads as no key (that byte
     * is consumed too) or no byte is left. Returns how many bytes were read.
     */
    method ProcessKeys(keys: seq<char>) returns (consumed: nat)
      modifies this
      ensures State() == AfterKeys(old(State()), keys[..FirstBlocked(keys)])
      ensures consumed == if FirstBlocked(keys) < |keys| then FirstBlocked(keys) + 1 else |keys|
    {
      ghost var start := State();
      var i := 0;
      while i < |keys| && FilterKey(keys[i]) != Nul
        invariant i <= FirstBlocked(keys)
        invariant AfterKeys(start, keys[..FirstBlocked(keys)]) == AfterKeys(State(), keys[i..FirstBlocked(keys)])
        decreases |keys| - i
      {
        assert keys[i..FirstBlocked(keys)][1..] == keys[i + 1..FirstBlocked(keys)];
        ProcessKey(FilterKey(keys[i]));
        i := i + 1;
      }
      consumed := if i < |keys| then i + 1 else i;
    }

    /** enableInput: disabling input drops the line being typed but keeps the queued lines. */
    method EnableInput(enable: bool)
      modifies this
      ensures State() == AfterEnable(old(State()), enable)
    {
      if enable {
        if !process {
          process := true;
        }
      } else {
        if process {
          process := false;
          input := "";
        }
      }
    }

    predicate HasLine()
      reads this
      ensures HasLine() <==> |State().lines| > 0
    {
      |lines| > 0
    }

    /** shouldExit. */
    predicate ShouldExit()
      reads this
      ensures ShouldExit() <==> State().exit
    {
      exit
    }

    /** handlerSignal: SIGINT and SIGTERM ask for exit. */
    method HandleSignal()
      modifies this
      ensures State() == old(State()).(exit := true)
    {
      exit := true;
    }

    /** getLine. */
    method GetLine() returns (line: string)
      modifies this
      ensures (line, State()) == AfterGetLine(old(State()))
    {
      line := "";
      if |lines| > 0 {
        line := lines[0];
        lines := lines[1..];
      }
    }
  }
}
