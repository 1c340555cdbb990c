/**
 * Properties of the line editor: what each key does, that disabled input
 * ignores keys, that every queued line is a non-empty run of printable
 * characters, and that such a line crosses the socket framing intact.
 */
module EditorProperties {
  import opened Sockets
  import opened LineEditor
  import SocketProperties

  /** getchar lets every byte from 0x20 up through unchanged, DEL included; below 0x20 only the editing keys. */
  lemma FilterPassesEditingKeys(c: char)
    ensures c as int >= 0x20 ==> FilterKey(c) == c
    ensures FilterKey(Backspace) == Backspace && FilterKey(Delete) == Delete && FilterKey(Escape) == Escape
    ensures FilterKey('\n') == '\n' && FilterKey('\r') == '\r'
    ensures c as int <= 0x1F && !Editing(c) ==> FilterKey(c) == Nul
  {
  }

  /** Backspace and DEL drop the last typed character, and do nothing on an empty line. */
  lemma EraseDropsLast(t: EditorState, c: char)
    requires t.process && (c == Backspace || c == Delete)
    ensures |t.input| > 0 ==> AfterKey(t, c) == t.(input := t.input[..|t.input| - 1])
    ensures |t.input| == 0 ==> AfterKey(t, c) == t
  {
  }

  /** Enter queues the typed line and clears it; on an empty line it does nothing, so no empty line is queued. */
  lemma EnterQueuesLine(t: EditorState, c: char)
    requires t.process && (c == '\n' || c == '\r')
    ensures |t.input| > 0 ==> AfterKey(t, c) == t.(lines := t.lines + [t.input], input := "")
    ensures |t.input| == 0 ==> AfterKey(t, c) == t
  {
  }

  /** ESC only sets the exit flag; a printable key is appended to the line. */
  lemma EscapeAndTyping(t: EditorState, c: char)
    requires t.process
    ensures AfterKey(t, Escape) == t.(exit := true)
    ensures Printable(c) ==> AfterKey(t, c) == t.(input := t.input + [c])
  {
  }

  /** While input is disabled every key is consumed without effect. */
  lemma {:induction false} DisabledIgnoresKeys(t: EditorState, keys: seq<char>)
    requires !t.process
    ensures AfterKeys(t, keys) == t
    decreases |keys|
  {
    if keys != [] {
      DisabledIgnoresKeys(AfterKey(t, keys[0]), keys[1..]);
    }
  }

  /** The keys of two runs, one after the other. */
  lemma {:induction false} KeysAppend(t: EditorState, a: seq<char>, b: seq<char>)
    ensures AfterKeys(t, a + b) == AfterKeys(AfterKeys(t, a), b)
    decreases |a|
  {
    if a == [] {
      assert a + b == b;
    } else {
      assert (a + b)[0] == a[0] && (a + b)[1..] == a[1..] + b;
      KeysAppend(AfterKey(t, a[0]), a[1..], b);
    }
  }

  /** Typing printable characters appends them to the line in order. */
  lemma {:induction false} TypingAppends(t: EditorState, s: string)
    requires t.process && forall k :: 0 <= k < |s| ==> Printable(s[k])
    ensures AfterKeys(t, s) == t.(input := t.input + s)
    decreases |s|
  {
    if s == [] {
      assert t.input + s == t.input;
    } else {
      TypingAppends(AfterKey(t, s[0]), s[1..]);
      assert t.input + [s[0]] + s[1..] == t.input + s;
    }
  }

  /** Typing a printable line and pressing Enter queues exactly that line. */
  lemma TypeLineThenEnter(t: EditorState, s: string)
    requires t.process && t.input == "" && s != "" && forall k :: 0 <= k < |s| ==> Printable(s[k])
    ensures AfterKeys(t, s + ['\n']) == t.(lines := t.lines + [s])
  {
    KeysAppend(t, s, ['\n']);
    TypingAppends(t, s);
    assert "" + s == s;
  }

  /** A key that getchar lets through keeps the editor clean. */
  lemma KeyKeepsClean(t: EditorState, c: char)
    requires Clean(t) && FilterKey(c) != Nul
    ensures Clean(AfterKey(t, c))
  {
    var r := AfterKey(t, c);
    if t.process && (c == '\n' || c == '\r') && |t.input| > 0 {
      assert r.lines == t.lines + [t.input];
      forall j | 0 <= j < |r.lines|
        ensures r.lines[j] != "" && forall k :: 0 <= k < |r.lines[j]| ==> Printable(r.lines[j][k])
      {
        if j == |t.lines| {
          assert r.lines[j] == t.input;
        }
      }
    }
  }

  /** A pass of the input loop keeps the editor clean. */
  lemma {:induction false} KeysKeepClean(t: EditorState, keys: seq<char>)
    requires Clean(t) && forall k :: 0 <= k < |keys| ==> FilterKey(keys[k]) != Nul
    ensures Clean(AfterKeys(t, keys))
    decreases |keys|
  {
    if keys != [] {
      KeyKeepsClean(t, keys[0]);
      KeysKeepClean(AfterKey(t, keys[0]), keys[1..]);
    }
  }

  /** ProcessKeys hands the switch only keys that getchar let through, so it keeps the editor clean. */
  lemma PassKeepsClean(t: EditorState, keys: seq<char>)
    requires Clean(t)
    ensures Clean(AfterKeys(t, keys[..FirstBlocked(keys)]))
  {
    KeysKeepClean(t, keys[..FirstBlocked(keys)]);
  }

  /** Disabling input clears the typed line and keeps the queued lines; enabling changes nothing else. */
  lemma EnableInputEffects(t: EditorState)
    ensures t.process ==> AfterEnable(t, false) == t.(process := false, input := "")
    ensures !t.process ==> AfterEnable(t, false) == t
    ensures AfterEnable(t, true) == t.(process := true)
    ensures Clean(t) ==> Clean(AfterEnable(t, false)) && Clean(AfterEnable(t, true))
  {
  }

  /** getLine is first in, first out. */
  lemma GetLineFifo(t: EditorState, line: string)
    requires t.lines != []
    ensures var (first, rest) := AfterGetLine(t);
      AfterGetLine(t.(lines := t.lines + [line])) == (first, rest.(lines := rest.lines + [line]))
  {
    assert (t.lines + [line])[1..] == t.lines[1..] + [line];
  }

  /**
   * A line the editor queued, sent with writeLine and received by a socket
   * with an empty buffer, is decoded as that same line and queued as data:
   * it holds no newline, no NUL, and does not start with the control byte.
   */
  lemma TypedLineCrossesWire(t: EditorState, sender: SocketState, receiver: SocketState, now: int, sendOk: bool)
    requires Clean(t) && t.lines != []
    requires sender.valid && receiver.valid && receiver.input == ""
    ensures var text := AfterGetLine(t).0;
      var w := AfterWriteLine(sender, text, true);
      var r := AfterProcess(receiver, Env([w.sent[|w.sent| - 1]], false, sendOk), now);
      r.lines == receiver.lines + [text] && r.input == ""
  {
    var text := t.lines[0];
    assert forall k :: 0 <= k < |text| ==> Printable(text[k]);
    assert '\n' !in text && '\0' !in text;
    assert !IsCommand(text);
    SocketProperties.WireRoundTrip(sender, receiver, text, now, sendOk);
  }
}
