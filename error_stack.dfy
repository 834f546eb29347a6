/**
  The `errorStack` of the chat channels: a list of per-recipient errors, where a nil
  entry stands for a recipient that succeeded. Its `Error()` text joins one segment per
  entry, each closed by ';', and the dispatcher later splits that text on ';'.
 */
module ErrorStacks {
  import opened Wrappers
  import opened Text

  /** The text of one entry: "nil" for a nil error, otherwise the error's message. */
  function Segment(e: Option<string>): string {
    if e.None? then "nil" else e.value
  }

  /** The segments of all entries, in order. */
  function Segments(items: seq<Option<string>>): (r: seq<string>)
    ensures |r| == |items|
    ensures forall i :: 0 <= i < |items| ==> r[i] == Segment(items[i])
  {
    seq(|items|, i requires 0 <= i < |items| => Segment(items[i]))
  }

  /** What `Error()` returns: every segment followed by ';', in order. */
  function Render(items: seq<Option<string>>): string
    decreases |items|
  {
    if |items| == 0 then "" else Segment(items[0]) + ";" + Render(items[1..])
  }

  /** No error message contains the separator, so splitting cannot cut a segment. */
  predicate SeparatorFree(items: seq<Option<string>>) {
    forall i :: 0 <= i < |items| && items[i].Some? ==> ';' !in items[i].value
  }

  lemma SeparatorFreeTail(items: seq<Option<string>>)
    requires |items| > 0 && SeparatorFree(items)
    ensures SeparatorFree(items[1..])
  {
    var rest := items[1..];
    forall i | 0 <= i < |rest| && rest[i].Some? ensures ';' !in rest[i].value {
      assert rest[i] == items[i + 1];
    }
  }

  lemma SegmentsCons(items: seq<Option<string>>)
    requires |items| > 0
    ensures Segments(items) == [Segment(items[0])] + Segments(items[1..])
  {
  }

  /**
    Splitting the rendered text on ';' gives back one segment per entry, in order,
    followed by the empty string after the last ';'. An empty stack renders as "",
    which splits to [""].
   */
  lemma {:induction false} SplitRender(items: seq<Option<string>>)
    requires SeparatorFree(items)
    ensures Split(Render(items), ';') == Segments(items) + [""]
    decreases |items|
  {
    if |items| > 0 {
      var rest := items[1..];
      var head := Segment(items[0]);
      assert items == [items[0]] + rest;
      SeparatorFreeTail(items);
      SplitRender(rest);
      assert ';' !in head by {
        if items[0].None? {
          assert head == "nil";
        }
      }
      SplitAfterPiece(head, Render(rest), ';');
      calc {
        Split(Render(items), ';');
        { assert Render(items) == head + [';'] + Render(rest); }
        Split(head + [';'] + Render(rest), ';');
        [head] + Split(Render(rest), ';');
        [head] + (Segments(rest) + [""]);
        { SegmentsCons(items); }
        Segments(items) + [""];
      }
    }
  }

  /** The stack itself; the Go type is a slice extended through a pointer receiver. */
  class ErrorStack {
    var items: seq<Option<string>>

    constructor ()
      ensures items == []
    {
      items := [];
    }

    /** `Append` adds exactly one entry at the end and leaves the others as they were. */
    method Append(err: Option<string>)
      modifies this
      ensures items == old(items) + [err]
    {
      items := items + [err];
    }

    /** `Error()` accumulates the text segment by segment. */
    method Error() returns (msg: string)
      ensures msg == Render(items)
    {
      msg := "";
      var i := 0;
      while i < |items|
        invariant 0 <= i <= |items|
        invariant msg + Render(items[i..]) == Render(items)
      {
        assert items[i..][1..] == items[i + 1..];
        ghost var seg, tail := Segment(items[i]) + ";", Render(items[i + 1..]);
        assert msg + (seg + tail) == (msg + seg) + tail;
        if items[i].None? {
          assert seg == "nil;";
          msg := msg + "nil;";
        } else {
          msg := msg + items[i].value + ";";
        }
        i := i + 1;
      }
      assert msg + "" == msg;
    }
  }
}
