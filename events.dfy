/** What the resizer makes observable: console messages, text appended to
    the log view, resample-and-save requests, and progress-bar settings. */
module Events {
  import opened CInt

  datatype Event =
    | Stdout(text: string)                              // g_print
    | Stderr(text: string)                              // g_printerr
    | Append(text: string)                              // inserted at the log view's cursor
    | Resize(dst: string, width: int32, height: int32)  // scale to width x height, save as JPEG at dst
    | Fraction(num: int, den: int)                      // progress bar set to num / den

  /** The progress-bar settings among `events`, in order. */
  function Fractions(events: seq<Event>): seq<Event>
  {
    if events == [] then []
    else
      var last := events[|events| - 1];
      Fractions(events[..|events| - 1]) + (if last.Fraction? then [last] else [])
  }

  lemma {:induction false} FractionsAppend(a: seq<Event>, b: seq<Event>)
    ensures Fractions(a + b) == Fractions(a) + Fractions(b)
  {
    if b == [] {
      assert a + b == a;
    } else {
      var k := |b| - 1;
      FractionsAppend(a, b[..k]);
      assert (a + b)[..|a + b| - 1] == a + b[..k];
    }
  }
}
