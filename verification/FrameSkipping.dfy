/**
 When the scan skips nothing valid: a condition on the bytes alone, both necessary and sufficient.
 */
module FrameSkipping {
  import opened Bytes
  import opened ReferenceParse

  /** A complete valid frame stands at `k`. */
  predicate FrameIn(s: seq<byte>, k: nat) {
    k <= |s| && FrameAt(s[k..])
  }

  /** The position behind the frame that stands at `k`. */
  function EndOf(s: seq<byte>, k: nat): (end: nat)
    requires FrameIn(s, k)
    ensures k + 7 <= end <= |s|
  {
    k + LengthAt(s[k..]) + 6
  }

  /** What stands at the front of `s` may be the beginning of a frame, but is too short for a decision. */
  predicate Unfinished(s: seq<byte>) {
    || |s| < 2
    || (HeaderAt(s) && (|s| < 4 || (LegalLength(LengthAt(s)) && |s| < LengthAt(s) + 6)))
  }

  predicate StartsUnfinished(s: seq<byte>, j: nat) {
    j <= |s| && Unfinished(s[j..])
  }

  /** No two valid frames overlap. */
  ghost predicate NoOverlap(s: seq<byte>) {
    forall j: nat, k: nat :: j < k && FrameIn(s, j) && FrameIn(s, k) ==> EndOf(s, j) <= k
  }

  /** Position `j` lies behind the beginning of a valid frame and before its end. */
  ghost predicate InsideSomeFrame(s: seq<byte>, j: nat) {
    exists m: nat :: FrameIn(s, m) && m < j < EndOf(s, m)
  }

  /** An unfinished frame that begins before a valid one does so only inside another valid frame. */
  ghost predicate NoFalseStart(s: seq<byte>) {
    forall j: nat, k: nat :: j < k && StartsUnfinished(s, j) && FrameIn(s, k) ==> InsideSomeFrame(s, j)
  }

  lemma UnfinishedExactly(s: seq<byte>)
    ensures Unfinished(s) <==> Decide(s).None?
  {
    hide HeaderAt, ChecksumAt, LengthAt, Taken;
  }

  /** The frame that event `i` takes stands at the event's offset and ends with the event. */
  lemma TakenFrameIn(s: seq<byte>, i: nat)
    requires i < |Parse(s).events| && Parse(s).events[i].Takes()
    ensures var k := Offset(Parse(s).events, i);
            FrameIn(s, k) && EndOf(s, k) == k + Parse(s).events[i].Size() <= |s| - |Parse(s).rest|
  {
    hide Decide, Parse, FrameAt, Offset, Taken;
    var k := Offset(Parse(s).events, i);
    EventDecided(s, i);
    DecisionAtFrame(s[k..]);
    FrameFits(s[k..]);
    assert Taken(PayloadAt(s[k..])).Size() == LengthAt(s[k..]) + 6;
    EventEndsInDecidedPart(s, i);
  }

  lemma FrameFits(s: seq<byte>)
    requires FrameAt(s)
    ensures |s| >= 4 && |s| >= LengthAt(s) + 6
  {
  }

  /** Without overlaps and false starts, every valid frame is taken. */
  lemma AllTaken(s: seq<byte>, k: nat)
    requires NoOverlap(s) && NoFalseStart(s) && FrameIn(s, k)
    ensures TakesFrameAt(s, k)
  {
    hide Decide, Parse, FrameAt, Offset, Unfinished, EndOf;
    var decided := |s| - |Parse(s).rest|;
    ParseStops(s);
    if k < decided {
      FramesTakenExactly(s, k);
      if InsideTakenFrame(s, k) {
        var events := Parse(s).events;
        var i :| 0 <= i < |events| && events[i].Takes() && Offset(events, i) < k < Offset(events, i) + events[i].Size();
        TakenFrameIn(s, i);
        assert false;
      }
    } else {
      RestOfScan(s);
      UnfinishedExactly(s[decided..]);
      DecisionAtFrame(s[k..]);
      assert k != decided;
      assert StartsUnfinished(s, decided);
      assert InsideSomeFrame(s, decided);
      var m: nat :| FrameIn(s, m) && m < decided < EndOf(s, m);
      FramesTakenExactly(s, m);
      NotAcross(s, m);
    }
  }

  /** What the scan leaves over is the end of the stream. */
  lemma RestOfScan(s: seq<byte>)
    ensures |Parse(s).rest| <= |s| && Parse(s).rest == s[|s| - |Parse(s).rest|..]
  {
    hide Decide, Offset;
    var events := Parse(s).events;
    ScanFromEvent(s, |events|);
    NothingDecided(s[Offset(events, |events|)..]);
  }

  /** Without overlaps, no valid frame reaches from the decided part into what is left over. */
  lemma NotAcross(s: seq<byte>, m: nat)
    requires NoOverlap(s) && FrameIn(s, m) && m < |s| - |Parse(s).rest|
    ensures EndOf(s, m) <= |s| - |Parse(s).rest|
  {
    hide Decide, Parse, FrameAt, Offset, EndOf;
    FramesTakenExactly(s, m);
    var events := Parse(s).events;
    if TakesFrameAt(s, m) {
      var i :| 0 <= i < |events| && events[i].Takes() && Offset(events, i) == m;
      TakenFrameIn(s, i);
    } else {
      var i :| 0 <= i < |events| && events[i].Takes() && Offset(events, i) < m < Offset(events, i) + events[i].Size();
      TakenFrameIn(s, i);
      assert false;
    }
  }

  lemma TakenDoNotOverlap(s: seq<byte>, j: nat, k: nat)
    requires j < k && TakesFrameAt(s, j) && TakesFrameAt(s, k)
    ensures FrameIn(s, j) && EndOf(s, j) <= k
  {
    hide Decide, Parse, FrameAt, Offset, EndOf;
    var events := Parse(s).events;
    var i :| 0 <= i < |events| && events[i].Takes() && Offset(events, i) == j;
    var n :| 0 <= n < |events| && events[n].Takes() && Offset(events, n) == k;
    TakenFrameIn(s, i);
    TakenFrameIn(s, n);
    if i < n {
      OffsetsIncrease(events, i, n);
    } else if n < i {
      OffsetsIncrease(events, n, i);
    }
  }

  lemma UnfinishedInsideTaken(s: seq<byte>, j: nat, k: nat)
    requires j < k && TakesFrameAt(s, k) && StartsUnfinished(s, j)
    ensures InsideSomeFrame(s, j)
  {
    hide Decide, Parse, FrameAt, Offset, EndOf, Unfinished;
    var events := Parse(s).events;
    var n :| 0 <= n < |events| && events[n].Takes() && Offset(events, n) == k;
    TakenFrameIn(s, n);
    DecidedPart(s);
    var i := EventCovering(events, j);
    EventDecided(s, i);
    UnfinishedExactly(s[j..]);
    DecisionAtFrame(s[Offset(events, i)..]);
    TakenFrameIn(s, i);
  }

  /**
   Every valid frame of a stream is taken if and only if no two valid frames overlap and no unfinished frame begins
   before a valid one, unless inside another valid one.
   */
  lemma EveryFrameTakenExactly(s: seq<byte>)
    ensures (forall k: nat :: FrameIn(s, k) ==> TakesFrameAt(s, k)) <==> NoOverlap(s) && NoFalseStart(s)
  {
    hide FrameIn, EndOf, TakesFrameAt, StartsUnfinished, InsideSomeFrame;
    if NoOverlap(s) && NoFalseStart(s) {
      forall k: nat | FrameIn(s, k) ensures TakesFrameAt(s, k) {
        AllTaken(s, k);
      }
    }
    if forall k: nat :: FrameIn(s, k) ==> TakesFrameAt(s, k) {
      forall j: nat, k: nat | j < k && FrameIn(s, j) && FrameIn(s, k) ensures EndOf(s, j) <= k {
        TakenDoNotOverlap(s, j, k);
      }
      forall j: nat, k: nat | j < k && StartsUnfinished(s, j) && FrameIn(s, k) ensures InsideSomeFrame(s, j) {
        UnfinishedInsideTaken(s, j, k);
      }
    }
  }
}
