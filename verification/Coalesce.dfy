/** Read-side delta batching: runs of adjacent deltas of one step and channel become one frame that
    carries the run's text and its last sequence number. */
module Coalesce {
  import opened Options
  import opened Sequences
  import opened Wire

  datatype Event = Event(seqNo: int, frame: Frame)

  /** Channel and text of a single-part delta of its own channel, or None. */
  function DeltaOf(f: Frame): Option<(Channel, string)> {
    if !f.Delta? || |f.content| != 1 then None
    else
      match (f.channel, f.content[0])
      case (MessageDelta, TextDelta(t)) => Some((MessageDelta, t))
      case (ReasoningDelta, ThinkDelta(t)) => Some((ReasoningDelta, t))
      case _ => None
  }

  function BuildDelta(channel: Channel, stepId: string, text: string): (f: Frame)
    ensures DeltaOf(f) == Some((channel, text)) && f.stepId == stepId
  {
    match channel
    case MessageDelta => Delta(MessageDelta, stepId, [TextDelta(text)])
    case ReasoningDelta => Delta(ReasoningDelta, stepId, [ThinkDelta(text)])
  }

  predicate Mergeable(x: Event, y: Event) {
    && DeltaOf(x.frame).Some? && DeltaOf(y.frame).Some?
    && DeltaOf(x.frame).value.0 == DeltaOf(y.frame).value.0
    && x.frame.stepId == y.frame.stepId
  }

  function Merge(x: Event, y: Event): Event
    requires Mergeable(x, y)
  {
    var (channel, before) := DeltaOf(x.frame).value;
    Event(y.seqNo, BuildDelta(channel, y.frame.stepId, before + DeltaOf(y.frame).value.1))
  }

  /** One iteration of the loop: fold `e` into the output built so far. */
  function Absorb(out: seq<Event>, e: Event): seq<Event> {
    if out != [] && Mergeable(out[|out| - 1], e)
    then out[..|out| - 1] + [Merge(out[|out| - 1], e)]
    else out + [e]
  }

  function Fold(out: seq<Event>, events: seq<Event>): seq<Event> {
    if events == [] then out else Absorb(Fold(out, events[..|events| - 1]), events[|events| - 1])
  }

  function Coalesced(events: seq<Event>): seq<Event> {
    Fold([], events)
  }

  /** The loop of the source: the last output entry is rewritten in place while the run lasts. */
  method CoalesceDeltas(events: seq<Event>) returns (out: seq<Event>)
    ensures out == Coalesced(events)
    ensures Render(out) == Render(events)
    ensures forall i :: 0 < i < |out| ==> !SameRun(out[i - 1].frame, out[i].frame)
  {
    out := [];
    for i := 0 to |events|
      invariant out == Coalesced(events[..i])
    {
      assert events[..i + 1][..i] == events[..i];
      var event := events[i];
      if out != [] && Mergeable(out[|out| - 1], event) {
        out := out[|out| - 1 := Merge(out[|out| - 1], event)];
      } else {
        out := out + [event];
      }
    }
    assert events[..|events|] == events;
    NoTwoOfARun(events);
    CoalescedRenders(events);
  }

  // ---- one event a run -------------------------------------------------------------------

  /** The frame is one piece of the channel's text. */
  predicate IsPiece(channel: Channel, f: Frame) {
    && f.Delta? && f.channel == channel && |f.content| == 1
    && (channel == MessageDelta ==> f.content[0].TextDelta?)
    && (channel == ReasoningDelta ==> f.content[0].ThinkDelta?)
  }

  function PieceText(channel: Channel, f: Frame): string
    requires IsPiece(channel, f)
  {
    if channel == MessageDelta then f.content[0].text else f.content[0].think
  }

  /** Two frames are pieces of one run: of one channel and one step. */
  predicate SameRun(f: Frame, g: Frame) {
    && f.Delta? && g.Delta? && f.channel == g.channel && f.stepId == g.stepId
    && IsPiece(f.channel, f) && IsPiece(g.channel, g)
  }

  predicate IsRunOf(channel: Channel, stepId: string, events: seq<Event>) {
    forall i :: 0 <= i < |events| ==> IsPiece(channel, events[i].frame) && events[i].frame.stepId == stepId
  }

  function RunText(channel: Channel, stepId: string, events: seq<Event>): string
    requires IsRunOf(channel, stepId, events)
  {
    if events == [] then ""
    else RunText(channel, stepId, events[..|events| - 1]) + PieceText(channel, events[|events| - 1].frame)
  }

  lemma PiecesMerge(x: Event, y: Event, channel: Channel)
    requires SameRun(x.frame, y.frame) && x.frame.channel == channel
    ensures Mergeable(x, y)
    ensures var m := Merge(x, y);
            && m.seqNo == y.seqNo && IsPiece(channel, m.frame) && m.frame.stepId == y.frame.stepId
            && PieceText(channel, m.frame) == PieceText(channel, x.frame) + PieceText(channel, y.frame)
  {
  }

  /** A run of pieces of one channel and one step becomes exactly one event: with the run's last
      number and the pieces' texts, joined. So do thoughts as well as answer text. */
  lemma {:induction false} RunIsOne(channel: Channel, stepId: string, events: seq<Event>)
    requires events != [] && IsRunOf(channel, stepId, events)
    ensures |Coalesced(events)| == 1
    ensures var one := Coalesced(events)[0];
            && one.seqNo == events[|events| - 1].seqNo && IsPiece(channel, one.frame) && one.frame.stepId == stepId
            && PieceText(channel, one.frame) == RunText(channel, stepId, events)
  {
    var init, last := events[..|events| - 1], events[|events| - 1];
    if init == [] {
      assert Fold([], init) == [];
      assert Coalesced(events) == Absorb([], last) == [last];
    } else {
      RunIsOne(channel, stepId, init);
      PiecesMerge(Coalesced(init)[0], last, channel);
      assert Coalesced(events) == Absorb(Coalesced(init), last);
    }
  }

  // ---- what a client renders -------------------------------------------------------------

  /** A screen is a sequence of glyphs: characters of a channel's step, or whole frames. */
  datatype Glyph = Char(channel: Channel, stepId: string, c: char) | Whole(frame: Frame)

  function RenderFrame(f: Frame): seq<Glyph> {
    match DeltaOf(f)
    case None => [Whole(f)]
    case Some((channel, text)) =>
      seq(|text|, i requires 0 <= i < |text| => Char(channel, f.stepId, text[i]))
  }

  function Render(events: seq<Event>): seq<Glyph> {
    if events == [] then []
    else Render(events[..|events| - 1]) + RenderFrame(events[|events| - 1].frame)
  }

  lemma RenderOne(a: seq<Event>, e: Event)
    ensures Render(a + [e]) == Render(a) + RenderFrame(e.frame)
  {
    assert (a + [e])[..|a|] == a;
  }

  lemma {:induction false} RenderAppend(a: seq<Event>, b: seq<Event>)
    ensures Render(a + b) == Render(a) + Render(b)
  {
    if b == [] {
      assert a + b == a;
    } else {
      var init, last := b[..|b| - 1], b[|b| - 1];
      RenderAppend(a, init);
      SplitLast(a, b);
      RenderOne(a + init, last);
      RenderOne(init, last);
      Chained(Render(a), Render(init), RenderFrame(last.frame), Render(a + init), Render(b), Render(a + b));
    }
  }

  lemma AbsorbRenders(out: seq<Event>, e: Event)
    ensures Render(Absorb(out, e)) == Render(out) + RenderFrame(e.frame)
  {
    if out != [] && Mergeable(out[|out| - 1], e) {
      var init, last := out[..|out| - 1], out[|out| - 1];
      var m := Merge(last, e);
      var r, before, here := Render(init), RenderFrame(last.frame), RenderFrame(e.frame);
      assert RenderFrame(m.frame) == before + here;
      RenderOne(init, m);
      assert r + (before + here) == (r + before) + here;
    } else {
      RenderOne(out, e);
    }
  }

  /** Coalescing cannot be seen: text of every step on both channels and every other frame, in
      order, are what the raw ledger renders. */
  lemma {:induction false} CoalescedRenders(events: seq<Event>)
    ensures Render(Coalesced(events)) == Render(events)
  {
    if events != [] {
      var init := events[..|events| - 1];
      CoalescedRenders(init);
      AbsorbRenders(Coalesced(init), events[|events| - 1]);
    }
  }

  // ---- normal form -----------------------------------------------------------------------

  ghost predicate Normal(events: seq<Event>) {
    forall i :: 0 < i < |events| ==> !Mergeable(events[i - 1], events[i])
  }

  lemma MergeableIs(x: Event, y: Event)
    ensures Mergeable(x, y) <==> SameRun(x.frame, y.frame)
  {
  }

  /** No two neighbours of a coalesced log are pieces of one run, on either channel. */
  lemma NoTwoOfARun(events: seq<Event>)
    ensures var out := Coalesced(events);
            forall i :: 0 < i < |out| ==> !SameRun(out[i - 1].frame, out[i].frame)
  {
    CoalescedNormal(events);
    var out := Coalesced(events);
    forall i | 0 < i < |out| ensures !SameRun(out[i - 1].frame, out[i].frame) {
      MergeableIs(out[i - 1], out[i]);
    }
  }

  lemma {:induction false} CoalescedNormal(events: seq<Event>)
    ensures Normal(Coalesced(events))
  {
    if events != [] {
      var init := Coalesced(events[..|events| - 1]);
      var e := events[|events| - 1];
      CoalescedNormal(events[..|events| - 1]);
      if init != [] && Mergeable(init[|init| - 1], e) && |init| > 1 {
        assert !Mergeable(init[|init| - 2], init[|init| - 1]);
      }
    }
  }

  lemma {:induction false} FoldAppend(out: seq<Event>, a: seq<Event>, b: seq<Event>)
    ensures Fold(out, a + b) == Fold(Fold(out, a), b)
  {
    if b == [] {
      assert a + b == a;
    } else {
      FoldAppend(out, a, b[..|b| - 1]);
      assert (a + b)[..|a + b| - 1] == a + b[..|b| - 1];
    }
  }

  lemma {:induction false} FoldNormal(out: seq<Event>, n: seq<Event>)
    requires Normal(out + n)
    ensures Fold(out, n) == out + n
  {
    if n != [] {
      var init := n[..|n| - 1];
      assert out + init == (out + n)[..|out + n| - 1];
      FoldNormal(out, init);
      assert (out + init) + [n[|n| - 1]] == out + n;
      if out + init != [] {
        var k := |out + n| - 1;
        assert !Mergeable((out + n)[k - 1], (out + n)[k]);
      }
    }
  }

  /** Merging is associative: absorbing a run one by one or as one merged event is the same. */
  lemma AbsorbMerged(out: seq<Event>, x: Event, y: Event)
    requires Mergeable(x, y)
    ensures Absorb(Absorb(out, x), y) == Absorb(out, Merge(x, y))
  {
    if out != [] && Mergeable(out[|out| - 1], x) {
      var last := out[|out| - 1];
      var (channel, t) := DeltaOf(last.frame).value;
      assert (t + DeltaOf(x.frame).value.1) + DeltaOf(y.frame).value.1
          == t + (DeltaOf(x.frame).value.1 + DeltaOf(y.frame).value.1);
    }
  }

  /** Folding a window in is the same as folding its coalesced form in. */
  lemma {:induction false} FoldCoalesced(out: seq<Event>, b: seq<Event>)
    ensures Fold(out, Coalesced(b)) == Fold(out, b)
  {
    if b != [] {
      var e := b[|b| - 1];
      var c := Coalesced(b[..|b| - 1]);
      FoldCoalesced(out, b[..|b| - 1]);
      if c != [] && Mergeable(c[|c| - 1], e) {
        var init := c[..|c| - 1];
        assert (init + [Merge(c[|c| - 1], e)])[..|c| - 1] == init;
        AbsorbMerged(Fold(out, init), c[|c| - 1], e);
      } else {
        assert (c + [e])[..|c|] == c;
      }
    }
  }

  /** An already batched log is left alone, and only such a log is. */
  lemma FixpointIffNormal(events: seq<Event>)
    ensures Coalesced(events) == events <==> Normal(events)
  {
    if Normal(events) {
      assert [] + events == events;
      FoldNormal([], events);
    }
    CoalescedNormal(events);
  }

  lemma CoalescedIdempotent(events: seq<Event>)
    ensures Coalesced(Coalesced(events)) == Coalesced(events)
  {
    CoalescedNormal(events);
    FixpointIffNormal(Coalesced(events));
  }

  /** Batching windows first and then their concatenation gives what batching the whole gives. */
  lemma CoalescedConcat(a: seq<Event>, b: seq<Event>)
    ensures Coalesced(a + b) == Coalesced(Coalesced(a) + Coalesced(b))
  {
    FoldAppend([], a, b);
    FoldAppend([], Coalesced(a), Coalesced(b));
    FoldCoalesced(Coalesced(a), b);
    CoalescedIdempotent(a);
  }

  /** The normal form is unique: merging any one mergeable pair first changes nothing, so every
      order of merging ends in the same log. */
  lemma MergeOrderIrrelevant(a: seq<Event>, x: Event, y: Event, b: seq<Event>)
    requires Mergeable(x, y)
    ensures Coalesced(a + [x, y] + b) == Coalesced(a + [Merge(x, y)] + b)
  {
    FoldAppend([], a + [x, y], b);
    FoldAppend([], a + [Merge(x, y)], b);
    assert (a + [x, y])[..|a| + 1] == a + [x] && (a + [x])[..|a|] == a;
    assert (a + [Merge(x, y)])[..|a|] == a;
    AbsorbMerged(Coalesced(a), x, y);
  }

  // ---- the windows of a ledger -----------------------------------------------------------

  /** Raw events `lo+1 .. hi` of a ledger; sequence numbers start at 1. */
  function Window(ledger: seq<Frame>, lo: nat, hi: nat): seq<Event>
    requires lo <= hi <= |ledger|
  {
    seq(hi - lo, i requires 0 <= i < hi - lo => Event(lo + i + 1, ledger[lo + i]))
  }

  /** `events` cut the window `(lo, hi]` into consecutive intervals, one event each, every event
      being exactly the batch of its own interval. */
  ghost predicate Tiles(events: seq<Event>, ledger: seq<Frame>, lo: nat, hi: nat)
    requires lo <= hi <= |ledger|
  {
    if events == [] then lo == hi
    else
      var last := events[|events| - 1];
      var start := if |events| == 1 then lo else events[|events| - 2].seqNo;
      && lo <= start < last.seqNo == hi
      && Coalesced(Window(ledger, start, hi)) == [last]
      && Tiles(events[..|events| - 1], ledger, lo, start)
  }

  lemma WindowSplit(ledger: seq<Frame>, lo: nat, mid: nat, hi: nat)
    requires lo <= mid <= hi <= |ledger|
    ensures Window(ledger, lo, hi) == Window(ledger, lo, mid) + Window(ledger, mid, hi)
  {
  }

  lemma TilesMerge(c: seq<Event>, e: Event, ledger: seq<Frame>, lo: nat, hi: nat)
    requires lo < hi <= |ledger| && e == Event(hi, ledger[hi - 1])
    requires Tiles(c, ledger, lo, hi - 1) && c != [] && Mergeable(c[|c| - 1], e)
    ensures Tiles(Absorb(c, e), ledger, lo, hi)
  {
    var init, last := c[..|c| - 1], c[|c| - 1];
    var start := if |c| == 1 then lo else c[|c| - 2].seqNo;
    var w := Window(ledger, start, hi);
    assert w[..|w| - 1] == Window(ledger, start, hi - 1);
    assert Coalesced(w) == Absorb([last], e) == [Merge(last, e)];
    var c' := Absorb(c, e);
    assert c'[..|c'| - 1] == init;
  }

  lemma TilesAppend(c: seq<Event>, e: Event, ledger: seq<Frame>, lo: nat, hi: nat)
    requires lo < hi <= |ledger| && e == Event(hi, ledger[hi - 1])
    requires Tiles(c, ledger, lo, hi - 1)
    ensures Tiles(c + [e], ledger, lo, hi)
  {
    assert (c + [e])[..|c|] == c;
    var w := Window(ledger, hi - 1, hi);
    assert w == [e] && w[..0] == [];
    assert Coalesced(w) == Absorb(Fold([], w[..0]), e);
  }

  /** The batch of a window tiles it. */
  lemma {:induction false} CoalescedTiles(ledger: seq<Frame>, lo: nat, hi: nat)
    requires lo <= hi <= |ledger|
    ensures Tiles(Coalesced(Window(ledger, lo, hi)), ledger, lo, hi)
    decreases hi
  {
    if lo < hi {
      var w := Window(ledger, lo, hi);
      var e := w[|w| - 1];
      assert w[..|w| - 1] == Window(ledger, lo, hi - 1);
      CoalescedTiles(ledger, lo, hi - 1);
      var c := Coalesced(Window(ledger, lo, hi - 1));
      assert Coalesced(w) == Absorb(c, e);
      if c != [] && Mergeable(c[|c| - 1], e) {
        TilesMerge(c, e, ledger, lo, hi);
      } else {
        TilesAppend(c, e, ledger, lo, hi);
      }
    }
  }

  /** Tilings of adjacent windows join. */
  lemma {:induction false} TilesJoin(a: seq<Event>, b: seq<Event>, ledger: seq<Frame>, lo: nat, mid: nat, hi: nat)
    requires lo <= mid <= hi <= |ledger|
    requires Tiles(a, ledger, lo, mid) && Tiles(b, ledger, mid, hi)
    ensures Tiles(a + b, ledger, lo, hi)
    decreases |b|
  {
    if b == [] {
      assert a + b == a;
    } else {
      var start := if |b| == 1 then mid else b[|b| - 2].seqNo;
      TilesJoin(a, b[..|b| - 1], ledger, lo, mid, start);
      assert (a + b)[..|a + b| - 1] == a + b[..|b| - 1];
      if |b| == 1 && a != [] {
        assert a[|a| - 1].seqNo == mid;
      }
    }
  }

  /** A tiling survives growth of the ledger. */
  lemma {:induction false} TilesGrow(events: seq<Event>, ledger: seq<Frame>, grown: seq<Frame>, lo: nat, hi: nat)
    requires lo <= hi <= |ledger| && ledger <= grown
    requires Tiles(events, ledger, lo, hi)
    ensures Tiles(events, grown, lo, hi)
    decreases |events|
  {
    if events != [] {
      var start := if |events| == 1 then lo else events[|events| - 2].seqNo;
      TilesGrow(events[..|events| - 1], ledger, grown, lo, start);
      assert Window(grown, start, hi) == Window(ledger, start, hi);
    }
  }

  lemma ShowStep(init: seq<Event>, last: Event, a: seq<Event>, b: seq<Event>)
    requires Render(init) == Render(a) && Coalesced(init) == Coalesced(a) && Coalesced(b) == [last]
    ensures Render(init + [last]) == Render(a + b)
    ensures Coalesced(init + [last]) == Coalesced(a + b)
  {
    RenderAppend(a, b);
    RenderAppend(init, [last]);
    CoalescedRenders(b);
    CoalescedConcat(a, b);
    CoalescedConcat(init, [last]);
    CoalescedIdempotent(b);
  }

  /** Where the last event's interval starts. */
  lemma TilesLast(events: seq<Event>, ledger: seq<Frame>, lo: nat, hi: nat) returns (start: nat)
    requires lo <= hi <= |ledger| && Tiles(events, ledger, lo, hi) && events != []
    ensures lo <= start < hi && Coalesced(Window(ledger, start, hi)) == [events[|events| - 1]]
    ensures Tiles(events[..|events| - 1], ledger, lo, start)
    ensures events == events[..|events| - 1] + [events[|events| - 1]]
  {
    start := if |events| == 1 then lo else events[|events| - 2].seqNo;
  }

  lemma TileShown(init: seq<Event>, last: Event, events: seq<Event>, a: seq<Event>, b: seq<Event>, all: seq<Event>)
    requires Render(init) == Render(a) && Coalesced(init) == Coalesced(a) && Coalesced(b) == [last]
    requires events == init + [last] && all == a + b
    ensures Render(events) == Render(all) && Coalesced(events) == Coalesced(all)
  {
    ShowStep(init, last, a, b);
  }

  /** A tiling shows exactly its window, and batching it gives the batch of the window. */
  lemma {:induction false} TilesShow(events: seq<Event>, ledger: seq<Frame>, lo: nat, hi: nat)
    requires lo <= hi <= |ledger| && Tiles(events, ledger, lo, hi)
    ensures Render(events) == Render(Window(ledger, lo, hi))
    ensures Coalesced(events) == Coalesced(Window(ledger, lo, hi))
    decreases |events|
  {
    if events == [] {
      assert Window(ledger, lo, hi) == [];
    } else {
      var init, last := events[..|events| - 1], events[|events| - 1];
      var start := TilesLast(events, ledger, lo, hi);
      var a, b := Window(ledger, lo, start), Window(ledger, start, hi);
      TilesShow(init, ledger, lo, start);
      WindowSplit(ledger, lo, start, hi);
      TileShown(init, last, events, a, b, Window(ledger, lo, hi));
    }
  }

  /** Its sequence numbers increase strictly inside the window and end at its upper end. */
  lemma {:induction false} TilesOrdered(events: seq<Event>, ledger: seq<Frame>, lo: nat, hi: nat)
    requires lo <= hi <= |ledger| && Tiles(events, ledger, lo, hi)
    ensures forall i, j :: 0 <= i < j < |events| ==> events[i].seqNo < events[j].seqNo
    ensures forall i :: 0 <= i < |events| ==> lo < events[i].seqNo <= hi
    ensures events != [] ==> events[|events| - 1].seqNo == hi
    decreases |events|
  {
    if events != [] {
      var start := if |events| == 1 then lo else events[|events| - 2].seqNo;
      TilesOrdered(events[..|events| - 1], ledger, lo, start);
    }
  }
}
