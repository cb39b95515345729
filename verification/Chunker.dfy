/** utils/chunker.py: splitting a response into messages of at most 2000
    characters, closing and reopening a code fence around each cut. */
module Chunker {

  const DISCORD_MAX: nat := 2000
  const CHUNK_MAX: nat := DISCORD_MAX - 20
  const FENCE := "```"
  const CLOSER := "\n```"
  const REOPENER := "```\n"

  /** `text.count("```")`: occurrences that do not overlap, left to right. */
  function CountFences(text: string): nat {
    if |text| < 3 then 0
    else if text[..3] == FENCE then 1 + CountFences(text[3..])
    else CountFences(text[1..])
  }

  predicate HasUnclosedCodeBlock(text: string) {
    CountFences(text) % 2 == 1
  }

  predicate Balanced(text: string) {
    CountFences(text) % 2 == 0
  }

  /** A fence on a line of its own is exactly one more fence. */
  lemma {:induction false} CloserAddsOneFence(text: string)
    ensures CountFences(text + CLOSER) == CountFences(text) + 1
  {
    var closed := text + CLOSER;
    if |text| < 3 {
      assert forall i :: 0 <= i <= |text| ==> closed[i..][|text| - i] == '\n';
      if |text| == 0 {
        assert closed[1..] == FENCE;
      } else {
        assert closed[..3] != FENCE by { assert closed[..3][|text|] == '\n'; }
        assert closed[1..] == text[1..] + CLOSER;
        CloserAddsOneFence(text[1..]);
      }
    } else if text[..3] == FENCE {
      assert closed[..3] == text[..3] && closed[3..] == text[3..] + CLOSER;
      CloserAddsOneFence(text[3..]);
    } else {
      assert closed[..3] == text[..3] && closed[1..] == text[1..] + CLOSER;
      CloserAddsOneFence(text[1..]);
    }
  }

  predicate OccursAt(text: string, sub: string, i: int, end: nat) {
    0 <= i && i + |sub| <= |text| && i + |sub| <= end && text[i..i + |sub|] == sub
  }

  /** `text.rfind(sub, 0, end)` */
  function Rfind(text: string, sub: string, end: nat): (r: int)
    ensures r == -1 || OccursAt(text, sub, r, end)
    ensures forall i :: OccursAt(text, sub, i, end) ==> i <= r
    decreases end
  {
    if OccursAt(text, sub, end - |sub|, end) then end - |sub|
    else if end == 0 then -1
    else
      assert forall i :: OccursAt(text, sub, i, end) && i != end - |sub| ==> OccursAt(text, sub, i, end - 1);
      Rfind(text, sub, end - 1)
  }

  /** A separator that may be cut at: in the second half of the window. */
  predicate UsableBreak(text: string, sep: string, i: int, maxLen: nat) {
    OccursAt(text, sep, i, maxLen) && i > maxLen / 2
  }

  ghost predicate LastUsableBreak(text: string, sep: string, r: int, maxLen: nat) {
    UsableBreak(text, sep, r, maxLen) && forall i :: UsableBreak(text, sep, i, maxLen) ==> i <= r
  }

  ghost predicate NoUsableBreak(text: string, sep: string, maxLen: nat) {
    forall i :: !UsableBreak(text, sep, i, maxLen)
  }

  function FindSplit(text: string, maxLen: nat): (r: nat)
    ensures r <= maxLen && (maxLen > 0 ==> r > maxLen / 2)
  {
    var paragraph := Rfind(text, "\n\n", maxLen);
    if paragraph > maxLen / 2 then paragraph else
    var line := Rfind(text, "\n", maxLen);
    if line > maxLen / 2 then line else
    var space := Rfind(text, " ", maxLen);
    if space > maxLen / 2 then space else
    maxLen
  }

  /** The cut is the last usable paragraph break; failing that the last usable
      newline; failing that the last usable space; failing that the limit. */
  lemma FindSplitPrefers(text: string, maxLen: nat)
    ensures var r := FindSplit(text, maxLen);
            if !NoUsableBreak(text, "\n\n", maxLen) then LastUsableBreak(text, "\n\n", r, maxLen)
            else if !NoUsableBreak(text, "\n", maxLen) then LastUsableBreak(text, "\n", r, maxLen)
            else if !NoUsableBreak(text, " ", maxLen) then LastUsableBreak(text, " ", r, maxLen)
            else r == maxLen
  {
    RfindDecides(text, "\n\n", maxLen);
    RfindDecides(text, "\n", maxLen);
    RfindDecides(text, " ", maxLen);
  }

  lemma RfindDecides(text: string, sub: string, maxLen: nat)
    ensures var r := Rfind(text, sub, maxLen);
            if r > maxLen / 2 then LastUsableBreak(text, sub, r, maxLen) && !NoUsableBreak(text, sub, maxLen)
            else NoUsableBreak(text, sub, maxLen)
  {
    var r := Rfind(text, sub, maxLen);
    if r > maxLen / 2 {
      assert UsableBreak(text, sub, r, maxLen);
    }
  }

  /** `text.lstrip("\n")` */
  function LStripNewlines(text: string): (r: string)
    ensures |r| <= |text|
    ensures text == Newlines(|text| - |r|) + r
    ensures r != "" ==> r[0] != '\n'
  {
    if text != "" && text[0] == '\n' then LStripNewlines(text[1..]) else text
  }

  function Newlines(n: nat): string {
    seq(n, _ => '\n')
  }

  /** What one chunk carries: a piece of the original text, whether fences were
      inserted around it, and how many newlines were dropped after it. */
  datatype Cut = Cut(reopened: bool, piece: string, closed: bool, dropped: nat) {
    function Opening(): string {
      (if reopened then REOPENER else "") + piece
    }

    function Rendered(): string {
      Opening() + (if closed then CLOSER else "")
    }
  }

  function Original(cuts: seq<Cut>): string {
    if cuts == [] then ""
    else
      var last := cuts[|cuts| - 1];
      Original(cuts[..|cuts| - 1]) + last.piece + Newlines(last.dropped)
  }

  predicate EndsOpen(cuts: seq<Cut>) {
    cuts != [] && cuts[|cuts| - 1].closed
  }

  /** A fence is inserted after the last cut exactly when a block is open there. */
  predicate EndsSettled(cuts: seq<Cut>) {
    cuts == [] || EndsOpen(cuts) == HasUnclosedCodeBlock(cuts[|cuts| - 1].Opening())
  }

  /** The chunks show the pieces in order; a fence is closed exactly where a
      block was open, and reopened exactly in the chunk that follows. */
  ghost predicate Shows(cuts: seq<Cut>, chunks: seq<string>) {
    if cuts == [] || chunks == [] then cuts == [] && chunks == []
    else
      var before, last := cuts[..|cuts| - 1], cuts[|cuts| - 1];
      && Shows(before, chunks[..|chunks| - 1])
      && EndsSettled(before)
      && last.reopened == EndsOpen(before)
      && chunks[|chunks| - 1] == last.Rendered()
  }

  /** Deleting the inserted fences leaves the original text, apart from
      newlines dropped at the cuts. */
  ghost predicate Reassembles(text: string, chunks: seq<string>) {
    exists cuts :: Explains(cuts, text, chunks)
  }

  ghost predicate Explains(cuts: seq<Cut>, text: string, chunks: seq<string>) {
    Shows(cuts, chunks) && Original(cuts) == text && cuts != [] && !EndsOpen(cuts)
  }

  /** The state between two iterations: `rest` is the text not yet cut. */
  ghost predicate InProgress(text: string, remaining: string, cuts: seq<Cut>, chunks: seq<string>) {
    && Shows(cuts, chunks)
    && EndsSettled(cuts)
    && (EndsOpen(cuts) ==> REOPENER <= remaining)
    && Original(cuts) + Uncut(remaining, cuts) == text
  }

  function Uncut(remaining: string, cuts: seq<Cut>): string {
    if EndsOpen(cuts) && |remaining| >= |REOPENER| then remaining[|REOPENER|..] else remaining
  }

  /** Adding one cut to the list of cuts. */
  lemma AddCut(cuts: seq<Cut>, chunks: seq<string>, cut: Cut)
    requires Shows(cuts, chunks)
    requires EndsSettled(cuts)
    requires cut.reopened == EndsOpen(cuts)
    ensures Shows(cuts + [cut], chunks + [cut.Rendered()])
    ensures Original(cuts + [cut]) == Original(cuts) + cut.piece + Newlines(cut.dropped)
  {
    var chunk := cut.Rendered();
    assert (cuts + [cut])[..|cuts|] == cuts && (chunks + [chunk])[..|chunks|] == chunks;
  }

  function Sealed(chunk: string): string {
    chunk + (if HasUnclosedCodeBlock(chunk) then CLOSER else "")
  }

  function Resumed(chunk: string, rest: string): string {
    (if HasUnclosedCodeBlock(chunk) then REOPENER else "") + rest
  }

  /** One iteration that cuts `remaining` at `splitAt`, inside the text and past
      any reopened fence, keeps the pieces and the original text in step. */
  lemma CutStep(text: string, remaining: string, cuts: seq<Cut>, chunks: seq<string>, splitAt: nat,
                chunk: string, next: string)
    returns (cut: Cut)
    requires InProgress(text, remaining, cuts, chunks)
    requires |REOPENER| <= splitAt <= |remaining|
    requires chunk == Sealed(remaining[..splitAt])
    requires next == Resumed(remaining[..splitAt], LStripNewlines(remaining[splitAt..]))
    ensures InProgress(text, next, cuts + [cut], chunks + [chunk])
    ensures next == "" ==> Reassembles(text, chunks + [chunk])
  {
    cut := MakeCut(remaining, cuts, splitAt);
    AddCut(cuts, chunks, cut);
    var after := LStripNewlines(remaining[splitAt..]);
    Regroup(Original(cuts), cut.piece, Newlines(cut.dropped), after);
    assert Uncut(next, cuts + [cut]) == after;
    if next == "" {
      assert Explains(cuts + [cut], text, chunks + [chunk]);
    }
  }

  lemma MakeCut(remaining: string, cuts: seq<Cut>, splitAt: nat) returns (cut: Cut)
    requires EndsOpen(cuts) ==> REOPENER <= remaining
    requires |REOPENER| <= splitAt <= |remaining|
    ensures cut.reopened == EndsOpen(cuts)
    ensures cut.closed == HasUnclosedCodeBlock(remaining[..splitAt])
    ensures cut.Opening() == remaining[..splitAt] && cut.Rendered() == Sealed(remaining[..splitAt])
    ensures Uncut(remaining, cuts)
         == cut.piece + (Newlines(cut.dropped) + LStripNewlines(remaining[splitAt..]))
  {
    var head, tail := remaining[..splitAt], remaining[splitAt..];
    SplitUncut(remaining, cuts, splitAt);
    cut := Cut(EndsOpen(cuts), Uncut(head, cuts), HasUnclosedCodeBlock(head), |tail| - |LStripNewlines(tail)|);
  }

  lemma SplitUncut(remaining: string, cuts: seq<Cut>, splitAt: nat)
    requires EndsOpen(cuts) ==> REOPENER <= remaining
    requires |REOPENER| <= splitAt <= |remaining|
    ensures Uncut(remaining, cuts) == Uncut(remaining[..splitAt], cuts) + remaining[splitAt..]
    ensures (if EndsOpen(cuts) then REOPENER else "") + Uncut(remaining[..splitAt], cuts) == remaining[..splitAt]
  {
  }

  lemma Regroup(a: string, b: string, c: string, d: string)
    ensures a + (b + (c + d)) == a + b + c + d
  {
  }

  /** The text left at the end becomes the last chunk as it stands. */
  lemma LastChunk(text: string, remaining: string, cuts: seq<Cut>, chunks: seq<string>)
    requires InProgress(text, remaining, cuts, chunks)
    ensures Reassembles(text, chunks + [remaining])
  {
    var cut := Cut(EndsOpen(cuts), Uncut(remaining, cuts), false, 0);
    assert cut.Rendered() == remaining;
    AddCut(cuts, chunks, cut);
    assert Explains(cuts + [cut], text, chunks + [remaining]);
  }

  lemma SealedIsBalanced(chunk: string)
    ensures Balanced(Sealed(chunk))
  {
    CloserAddsOneFence(chunk);
    assert chunk + "" == chunk;
  }

  method ChunkMessage(text: string) returns (chunks: seq<string>)
    ensures |text| <= DISCORD_MAX ==> chunks == [text]
    ensures forall i :: 0 <= i < |chunks| ==> |chunks[i]| <= DISCORD_MAX
    ensures forall i :: 0 <= i < |chunks| - 1 ==> Balanced(chunks[i])
    ensures Reassembles(text, chunks)
  {
    if |text| <= DISCORD_MAX {
      LastChunk(text, text, [], []);
      assert [] + [text] == [text];
      return [text];
    }

    chunks := [];
    var remaining := text;
    ghost var cuts: seq<Cut> := [];
    while remaining != ""
      invariant forall i :: 0 <= i < |chunks| ==> |chunks[i]| <= DISCORD_MAX && Balanced(chunks[i])
      invariant InProgress(text, remaining, cuts, chunks)
      invariant remaining == "" ==> Reassembles(text, chunks)
      decreases |remaining|
    {
      if |remaining| <= CHUNK_MAX {
        LastChunk(text, remaining, cuts, chunks);
        chunks := chunks + [remaining];
        return;
      }

      var splitAt := FindSplit(remaining, CHUNK_MAX);
      var chunk := remaining[..splitAt];
      var next := LStripNewlines(remaining[splitAt..]);

      ghost var head, after := chunk, next;
      SealedIsBalanced(head);
      if HasUnclosedCodeBlock(chunk) {
        chunk := chunk + CLOSER;
        next := REOPENER + next;
      }

      assert chunk == Sealed(head) && next == Resumed(head, after);
      ghost var cut := CutStep(text, remaining, cuts, chunks, splitAt, chunk, next);
      chunks := chunks + [chunk];
      cuts := cuts + [cut];
      remaining := next;
    }
  }
}
