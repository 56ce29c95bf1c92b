/**
 * The status line as both ends of the named pipe see it: what the helper
 * writes (ime_checker.py) decoded by the extension's `data` handler
 * (extension.js). Each lemma takes one pipe chunk as the handler receives it.
 */
module Protocol {
  import opened JsString
  import opened ImeChecker
  import opened Marker

  /** A line with no whitespace at either end, followed by its line break: `trim` gives back the line. */
  lemma TrimLine(x: string)
    requires x != [] && !IsJsWhitespace(x[0]) && !IsJsWhitespace(x[|x| - 1])
    ensures Trim(x + "\n") == x
  {
    assert x + "\n" == [] + x + "\n";
    TrimPadded([], x, "\n");
  }

  /** The status line stripped of its line break is what `trim` leaves of it. */
  lemma TrimMessage(mode: int, caps: bool)
    ensures Trim(Message(mode, caps)) == IntString(mode) + "," + BoolString(caps)
  {
    var d, f := IntString(mode), BoolString(caps);
    var x := d + "," + f;
    assert x[0] == d[0];
    assert x[|x| - 1] == 'e' by {
      assert x[|x| - 1] == f[|f| - 1];
    }
    TrimLine(x);
  }

  /**
   * Round trip of one status line: caps lock on gives blue, otherwise mode 1
   * gives yellow, mode 0 gives pink, and any other mode keeps the colour.
   */
  lemma MessageRoundTrip(current: Color, mode: int, caps: bool)
    ensures NextColor(current, Message(mode, caps)) ==
      if caps then Blue else if mode == 1 then Yellow else if mode == 0 then Pink else current
  {
    TrimMessage(mode, caps);
    IntStringPlain(mode);
    IntStringSmall(mode);
    assert IntString(mode) + "," + BoolString(caps) == IntString(mode) + "," + BoolString(caps) + [];
    TwoOrMoreFields(current, Message(mode, caps), IntString(mode), BoolString(caps), []);
  }

  /**
   * Whatever the operating system reports, the line the helper sends decides
   * the colour outright: blue when the caps-lock toggle bit is set, otherwise
   * yellow when the IME is open in native mode, otherwise pink. The colour
   * shown before does not matter.
   */
  lemma HelperRoundTrip(current: Color, openStatus: int, conversionMode: int, keyState: int)
    ensures NextColor(current, HelperMessage(openStatus, conversionMode, keyState)) ==
      if keyState % 2 == 1 then Blue
      else if openStatus != 0 && conversionMode % 2 == 1 then Yellow
      else Pink
  {
    MessageRoundTrip(current, InputMode(openStatus, conversionMode), IsCapsLockOn(keyState));
  }

  /**
   * Two status lines delivered in one chunk (the handler does not split on
   * line breaks): only the first line's mode counts, and caps lock is never
   * recognised, because the caps field then runs on into the second line.
   */
  lemma TwoMessagesInOneChunk(current: Color, mode1: int, caps1: bool, mode2: int, caps2: bool)
    ensures NextColor(current, Message(mode1, caps1) + Message(mode2, caps2)) ==
      if mode1 == 1 then Yellow else if mode1 == 0 then Pink else current
  {
    var b := TrimTwoMessages(mode1, caps1, mode2, caps2);
    IntStringSmall(mode1);
    IntStringPlain(mode1);
    TwoOrMoreFields(current, Message(mode1, caps1) + Message(mode2, caps2), IntString(mode1), b, "," + BoolString(caps2));
  }

  /** `trim` of two status lines only drops the final line break; the second field then spans the line break. */
  lemma TrimTwoMessages(mode1: int, caps1: bool, mode2: int, caps2: bool) returns (b: string)
    ensures b == BoolString(caps1) + "\n" + IntString(mode2)
    ensures ',' !in b && b != "True"
    ensures Trim(Message(mode1, caps1) + Message(mode2, caps2)) == IntString(mode1) + "," + b + ("," + BoolString(caps2))
  {
    var d1, f1 := IntString(mode1), BoolString(caps1);
    var d2, f2 := IntString(mode2), BoolString(caps2);
    b := f1 + "\n" + d2;
    TrimTwoLines(d1, f1, d2, f2);
    assert ',' !in b by {
      IntStringPlain(mode2);
      assert b == f1 + ("\n" + d2);
    }
    assert |b| > 4;
  }

  /** Two comma-separated lines in one string: `trim` drops only the final line break. */
  lemma TrimTwoLines(d1: string, f1: string, d2: string, f2: string)
    requires d1 != [] && !IsJsWhitespace(d1[0])
    requires f2 != [] && !IsJsWhitespace(f2[|f2| - 1])
    ensures Trim((d1 + "," + f1 + "\n") + (d2 + "," + f2 + "\n")) == d1 + "," + (f1 + "\n" + d2) + ("," + f2)
  {
    var x := d1 + "," + (f1 + "\n" + d2) + ("," + f2);
    assert (d1 + "," + f1 + "\n") + (d2 + "," + f2 + "\n") == x + "\n";
    assert x[0] == d1[0];
    assert x[|x| - 1] == f2[|f2| - 1];
    TrimLine(x);
  }
}
