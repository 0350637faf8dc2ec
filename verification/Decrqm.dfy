/** Detecting the wraparound mode query ESC [ ? 7 $ p in a chunked stream with a carry of five bytes. */
module Decrqm {
  import opened Types

  const QUERY: seq<byte> := [0x1b, 0x5b, 0x3f, 0x37, 0x24, 0x70]

  predicate QueryAt(s: seq<byte>, i: nat) {
    i + |QUERY| <= |s| && s[i..i + |QUERY|] == QUERY
  }

  ghost predicate HasQuery(s: seq<byte>) {
    exists i :: QueryAt(s, i)
  }

  function Carry(s: seq<byte>): (c: seq<byte>)
    ensures |c| <= 5
  {
    if |s| <= 5 then s else s[|s| - 5..]
  }

  class DecrqmDetector {
    var pending: seq<byte>

    constructor ()
      ensures pending == []
    {
      pending := [];
    }

    method AnyWindow() returns (found: bool)
      ensures found <==> HasQuery(pending)
    {
      var i := 0;
      while i + |QUERY| <= |pending|
        invariant forall j | 0 <= j < i :: !QueryAt(pending, j)
      {
        if pending[i..i + |QUERY|] == QUERY {
          assert QueryAt(pending, i);
          return true;
        }
        i := i + 1;
      }
      return false;
    }

    method IngestDecrqmQuery(output: seq<byte>) returns (saw: bool)
      modifies this
      ensures saw <==> HasQuery(old(pending) + output)
      ensures pending == if saw then [] else Carry(old(pending) + output)
    {
      pending := pending + output;
      saw := AnyWindow();
      if saw {
        pending := [];
        return;
      }
      var keep := Min(|pending|, |QUERY| - 1);
      if keep < |pending| {
        pending := pending[|pending| - keep..];
      }
    }
  }

  // ---------- whole streams ----------

  // The carry after the chunks.
  ghost function CarryAfter(chunks: seq<seq<byte>>): seq<byte>
    decreases |chunks|, 0
  {
    if chunks == [] || LastReports(chunks) then []
    else Carry(CarryAfter(chunks[..|chunks| - 1]) + chunks[|chunks| - 1])
  }

  // Whether the last of the chunks reports.
  ghost predicate LastReports(chunks: seq<seq<byte>>)
    requires chunks != []
    decreases |chunks| - 1, 1
  {
    HasQuery(CarryAfter(chunks[..|chunks| - 1]) + chunks[|chunks| - 1])
  }

  ghost predicate Reports(chunks: seq<seq<byte>>, k: nat)
    requires k < |chunks|
  {
    LastReports(chunks[..k + 1])
  }

  // The bytes since the last chunk that reported.
  ghost function SinceReport(chunks: seq<seq<byte>>): seq<byte> {
    if chunks == [] || LastReports(chunks) then []
    else SinceReport(chunks[..|chunks| - 1]) + chunks[|chunks| - 1]
  }

  // A detector that is fed the chunks.
  method Feed(detector: DecrqmDetector, chunks: seq<seq<byte>>) returns (reports: seq<bool>)
    requires detector.pending == []
    modifies detector
    ensures detector.pending == CarryAfter(chunks)
    ensures |reports| == |chunks| && forall k | 0 <= k < |chunks| :: reports[k] == Reports(chunks, k)
  {
    reports := [];
    var i := 0;
    while i < |chunks|
      invariant i <= |chunks| && |reports| == i
      invariant detector.pending == CarryAfter(chunks[..i])
      invariant forall k | 0 <= k < i :: reports[k] == Reports(chunks, k)
    {
      assert chunks[..i + 1][..i] == chunks[..i];
      var saw := detector.IngestDecrqmQuery(chunks[i]);
      reports := reports + [saw];
      i := i + 1;
    }
    assert chunks[..i] == chunks;
  }

  /** Five bytes are enough: a query in the longer stream either was there before or is seen through the carry. */
  lemma CarrySuffices(before: seq<byte>, chunk: seq<byte>)
    requires !HasQuery(before)
    ensures HasQuery(before + chunk) <==> HasQuery(Carry(before) + chunk)
    ensures Carry(before + chunk) == Carry(Carry(before) + chunk)
  {
    var all, seen := before + chunk, Carry(before) + chunk;
    var cut := |before| - |Carry(before)|;
    assert seen == all[cut..];
    forall i: nat ensures QueryAt(seen, i) <==> QueryAt(all, cut + i) {
      if cut + i + |QUERY| <= |all| {
        assert seen[i..i + |QUERY|] == all[cut + i..cut + i + |QUERY|];
      }
    }
    if HasQuery(all) {
      var i: nat :| QueryAt(all, i);
      if i + |QUERY| <= |before| {
        assert all[i..i + |QUERY|] == before[i..i + |QUERY|];
        assert QueryAt(before, i);
      } else {
        assert QueryAt(seen, i - cut);
      }
    }
  }

  lemma {:induction false} CarryIsEnd(chunks: seq<seq<byte>>)
    ensures CarryAfter(chunks) == Carry(SinceReport(chunks)) && !HasQuery(SinceReport(chunks))
  {
    if chunks != [] {
      CarryIsEnd(chunks[..|chunks| - 1]);
      CarrySuffices(SinceReport(chunks[..|chunks| - 1]), chunks[|chunks| - 1]);
    }
  }

  /** A chunk reports exactly when the bytes since the last report, with it, contain the query. */
  lemma ReportsSinceLast(chunks: seq<seq<byte>>, k: nat)
    requires k < |chunks|
    ensures Reports(chunks, k) <==> HasQuery(SinceReport(chunks[..k]) + chunks[k])
  {
    assert chunks[..k + 1][..k] == chunks[..k];
    CarryIsEnd(chunks[..k]);
    CarrySuffices(SinceReport(chunks[..k]), chunks[k]);
  }

  // No chunk reports.
  ghost predicate Silent(chunks: seq<seq<byte>>) {
    chunks != [] ==> Silent(chunks[..|chunks| - 1]) && !LastReports(chunks)
  }

  lemma PrefixReports(chunks: seq<seq<byte>>, n: nat, k: nat)
    requires k < n <= |chunks|
    ensures Reports(chunks[..n], k) == Reports(chunks, k)
  {
    assert chunks[..n][..k + 1] == chunks[..k + 1];
  }

  lemma {:induction false} SilentAt(chunks: seq<seq<byte>>, k: nat)
    requires Silent(chunks) && k < |chunks|
    ensures !Reports(chunks, k)
    decreases |chunks|
  {
    var n := |chunks| - 1;
    if k == n {
      assert chunks[..n + 1] == chunks;
    } else {
      SilentAt(chunks[..n], k);
      PrefixReports(chunks, n, k);
    }
  }

  lemma {:induction false} SomeReport(chunks: seq<seq<byte>>) returns (k: nat)
    requires !Silent(chunks)
    ensures k < |chunks| && Reports(chunks, k)
    decreases |chunks|
  {
    var n := |chunks| - 1;
    if LastReports(chunks) {
      k := n;
      assert chunks[..n + 1] == chunks;
    } else {
      k := SomeReport(chunks[..n]);
      PrefixReports(chunks, n, k);
    }
  }

  lemma ExtendedHasQuery(s: seq<byte>, t: seq<byte>)
    requires HasQuery(s)
    ensures HasQuery(s + t)
  {
    var i: nat :| QueryAt(s, i);
    assert (s + t)[i..i + |QUERY|] == s[i..i + |QUERY|];
    assert QueryAt(s + t, i);
  }

  /** For every chunking: no chunk reports exactly when the whole stream does not contain the query. */
  lemma {:induction false} SilentIffNoQuery(chunks: seq<seq<byte>>)
    ensures Silent(chunks) <==> !HasQuery(Joined(chunks))
    ensures Silent(chunks) ==> SinceReport(chunks) == Joined(chunks)
  {
    if chunks != [] {
      var before, last := chunks[..|chunks| - 1], chunks[|chunks| - 1];
      SilentIffNoQuery(before);
      if Silent(before) {
        CarryIsEnd(before);
        CarrySuffices(Joined(before), last);
      } else {
        ExtendedHasQuery(Joined(before), last);
      }
    }
  }

  // `ESC [ ? 7 $ p`, byte by byte.
  ghost predicate AsksForWraparound(s: seq<byte>) {
    exists i: nat | i + 6 <= |s| ::
      s[i] == 0x1b && s[i + 1] == 0x5b && s[i + 2] == 0x3f && s[i + 3] == 0x37 && s[i + 4] == 0x24 && s[i + 5] == 0x70
  }

  lemma QueryIsSixBytes(s: seq<byte>)
    ensures HasQuery(s) <==> AsksForWraparound(s)
  {
    if HasQuery(s) {
      var i: nat :| QueryAt(s, i);
      assert forall j | 0 <= j < 6 :: s[i + j] == s[i..i + 6][j] == QUERY[j];
      assert s[i + 0] == 0x1b && s[i + 1] == 0x5b && s[i + 2] == 0x3f && s[i + 3] == 0x37 && s[i + 4] == 0x24;
      assert s[i + 5] == 0x70;
    }
    if AsksForWraparound(s) {
      var i: nat :| i + 6 <= |s| && s[i] == 0x1b && s[i + 1] == 0x5b && s[i + 2] == 0x3f && s[i + 3] == 0x37
                    && s[i + 4] == 0x24 && s[i + 5] == 0x70;
      assert s[i..i + 6] == [0x1b, 0x5b, 0x3f, 0x37, 0x24, 0x70];
      assert QueryAt(s, i);
    }
  }

  /** Some chunk reports exactly when the whole stream contains the six bytes of the query. */
  lemma SomeReportIffQuery(chunks: seq<seq<byte>>)
    ensures (exists k: nat :: k < |chunks| && Reports(chunks, k)) <==> HasQuery(Joined(chunks))
    ensures HasQuery(Joined(chunks)) <==> AsksForWraparound(Joined(chunks))
  {
    QueryIsSixBytes(Joined(chunks));
    SilentIffNoQuery(chunks);
    if Silent(chunks) {
      forall k: nat | k < |chunks| ensures !Reports(chunks, k) {
        SilentAt(chunks, k);
      }
    } else {
      var k := SomeReport(chunks);
    }
  }

  /** And the first chunk to report is the one in which the first occurrence of the query ends. */
  lemma FirstReport(chunks: seq<seq<byte>>, k: nat)
    requires k < |chunks|
    ensures Reports(chunks, k) && Silent(chunks[..k])
            <==> HasQuery(Joined(chunks[..k + 1])) && !HasQuery(Joined(chunks[..k]))
  {
    assert chunks[..k + 1][..k] == chunks[..k];
    SilentIffNoQuery(chunks[..k]);
    SilentIffNoQuery(chunks[..k + 1]);
  }

  /** Only the first report is that precise: a report forgets the rest of its chunk, so a second query that
      starts in it is missed. */
  lemma SecondQueryCanBeMissed()
    ensures var chunks := [QUERY + QUERY[..3], QUERY[3..]];
            && Reports(chunks, 0) && !Reports(chunks, 1)
            && QueryAt(Joined(chunks), 0) && QueryAt(Joined(chunks), |QUERY|)
  {
    var first, second := QUERY + QUERY[..3], QUERY[3..];
    var chunks, none: seq<seq<byte>> := [first, second], [];
    assert chunks[..1][..0] == none && chunks[..2] == chunks;
    assert [] + first == first && first[0..6] == QUERY;
    assert QueryAt(first, 0);
    assert LastReports(chunks[..1]);
    assert CarryAfter(chunks[..1]) == [] && chunks[..2][..1] == chunks[..1];
    assert [] + second == second && !HasQuery(second);
    assert Joined(chunks[..1]) == first;
    assert Joined(chunks) == QUERY + QUERY;
  }
}
