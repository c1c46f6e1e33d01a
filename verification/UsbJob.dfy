/**
 The USB writer (native/android/UsbBulkWriter.kt) and the step loop of a print job
 (native/android/EpsonUsbPrinterPlugin.kt:453-601). The transport is a sequence of
 replies, one per attempt, so a statement for all replies is one for every device.
 */
module UsbJob {
  import opened Printing

  type Byte = bv8

  /** What one turn of the write loop meets: `connectedAfter` is only asked after a failure. */
  datatype Reply =
    | Disconnected
    | Threw(connectedAfter: bool)
    | Wrote(count: int, connectedAfter: bool)

  datatype WriteStatus = COMPLETE | NO_BYTES_SENT | PARTIAL

  datatype Failure = DEVICE_DISCONNECTED | TRANSPORT_ERROR

  datatype WriteResult = WriteResult(status: WriteStatus, bytesWritten: nat, totalBytes: nat, failures: set<Failure>)

  function FailedWriteResult(bytesWritten: nat, totalBytes: nat, failure: Failure): WriteResult {
    WriteResult(if bytesWritten == 0 then NO_BYTES_SENT else PARTIAL, bytesWritten, totalBytes, {failure})
  }

  function Blame(connected: bool): Failure { if connected then TRANSPORT_ERROR else DEVICE_DISCONNECTED }

  function Min(a: int, b: int): int { if a <= b then a else b }

  predicate Confirms(r: Reply, requested: int) { r.Wrote? && 0 < r.count <= requested }

  /** Sum of the first n confirmed counts. */
  function Confirmed(replies: seq<Reply>, n: nat): int
    requires n <= |replies|
  {
    if n == 0 then 0 else Confirmed(replies, n - 1) + if replies[n - 1].Wrote? then replies[n - 1].count else 0
  }

  /** The first n replies confirm chunks of the data, none larger than the chunk requested. */
  predicate Progress(replies: seq<Reply>, n: nat, total: nat, maxChunk: int) {
    && n <= |replies|
    && forall i :: 0 <= i < n ==> Confirms(replies[i], Min(maxChunk, total - Confirmed(replies, i)))
  }

  /**
   The transfer stops at the first reply that confirms no chunk, or when every byte is
   confirmed. `turns` replies were used, `sent` is what the device confirmed.
   */
  method WriteUsbBuffer(data: seq<Byte>, maxChunk: int, replies: seq<Reply>)
      returns (result: WriteResult, turns: nat, sent: seq<seq<Byte>>)
    requires 0 < maxChunk
    requires |data| <= |replies|
    ensures result.totalBytes == |data| && result.bytesWritten <= |data|
    ensures turns <= |data| && Progress(replies, turns, |data|, maxChunk)
    ensures result.bytesWritten == Confirmed(replies, turns)
    ensures |sent| == turns && (forall i :: 0 <= i < turns ==> 0 < |sent[i]| <= maxChunk)
    ensures Joined(sent) == data[..result.bytesWritten]
    ensures result.status == COMPLETE <==> result.bytesWritten == |data|
    ensures result.status == NO_BYTES_SENT <==> result.bytesWritten == 0 && data != []
    ensures result.status == COMPLETE <==> result.failures == {}
    ensures result.status != COMPLETE ==>
              && turns < |replies|
              && !Confirms(replies[turns], Min(maxChunk, |data| - result.bytesWritten))
              && result.failures == {if replies[turns].Disconnected? || !replies[turns].connectedAfter then DEVICE_DISCONNECTED
                                     else TRANSPORT_ERROR}
  {
    hide Progress, Joined;
    var offset := 0;
    NoProgressYet(replies, |data|, maxChunk);
    JoinedNothing();
    turns, sent := 0, [];
    while offset < |data|
      invariant 0 <= turns <= offset <= |data|
      invariant Progress(replies, turns, |data|, maxChunk) && offset == Confirmed(replies, turns)
      invariant |sent| == turns && forall i :: 0 <= i < turns ==> 0 < |sent[i]| <= maxChunk
      invariant Joined(sent) == data[..offset]
    {
      var reply := replies[turns];
      if reply.Disconnected? {
        return FailedWriteResult(offset, |data|, DEVICE_DISCONNECTED), turns, sent;
      }
      var requested := Min(maxChunk, |data| - offset);
      if reply.Threw? || reply.count <= 0 || reply.count > requested {
        return FailedWriteResult(offset, |data|, Blame(reply.connectedAfter)), turns, sent;
      }
      var chunk := data[offset..offset + reply.count];
      JoinedAppend(sent, chunk);
      assert data[..offset] + chunk == data[..offset + reply.count];
      ProgressOneMore(replies, turns, |data|, maxChunk);
      sent := sent + [chunk];
      offset, turns := offset + reply.count, turns + 1;
    }
    return WriteResult(COMPLETE, offset, |data|, {}), turns, sent;
  }

  lemma {:induction false} NoProgressYet(replies: seq<Reply>, total: nat, maxChunk: int)
    ensures Progress(replies, 0, total, maxChunk) && Confirmed(replies, 0) == 0
  {
  }

  lemma {:induction false} ProgressOneMore(replies: seq<Reply>, n: nat, total: nat, maxChunk: int)
    requires Progress(replies, n, total, maxChunk) && n < |replies|
    requires Confirms(replies[n], Min(maxChunk, total - Confirmed(replies, n)))
    ensures Progress(replies, n + 1, total, maxChunk)
    ensures Confirmed(replies, n + 1) == Confirmed(replies, n) + replies[n].count
  {
  }

  lemma {:induction false} JoinedNothing()
    ensures Joined([]) == []
  {
  }

  function Joined(chunks: seq<seq<Byte>>): seq<Byte> {
    if chunks == [] then [] else Joined(chunks[..|chunks| - 1]) + chunks[|chunks| - 1]
  }

  lemma {:induction false} JoinedAppend(chunks: seq<seq<Byte>>, chunk: seq<Byte>)
    ensures Joined(chunks + [chunk]) == Joined(chunks) + chunk
  {
  }

  // ----- The step loop of a job -----

  datatype Step =
    | DocumentStep(document: Document, bytes: nat)
    | CutStep(feedBytes: nat)
    | UnknownStep

  const CUT_COMMAND_BYTES := 3
  const FALLBACK_BYTES := 47

  /** What the writer may answer for a buffer of a given size. */
  predicate Honest(r: WriteResult, size: nat) {
    && r.totalBytes == size && r.bytesWritten <= size
    && (r.status == COMPLETE <==> r.bytesWritten == size)
    && (r.status == NO_BYTES_SENT <==> r.bytesWritten == 0 && size != 0)
  }

  /** The answers of the successive writes of a job, one per write. */
  type Wire = (nat, nat) -> WriteResult

  ghost predicate HonestWire(wire: Wire) {
    forall i: nat, size: nat :: Honest(wire(i, size), size)
  }

  datatype JobState = JobState(
    completed: seq<Document>,
    unknown: seq<Document>,
    bytesWritten: nat,
    writes: nat,
    ok: bool,
    confirmed: map<Document, nat>)

  /** `confirmed` is bookkeeping of the model: the bytes the device confirmed for each document. */
  function BytesOf(s: JobState, d: Document): nat { if d in s.confirmed then s.confirmed[d] else 0 }

  const START := JobState([], [], 0, 0, true, map[])

  function RunStep(s: JobState, step: Step, wire: Wire): JobState {
    match step
    case DocumentStep(d, size) =>
      if size == 0 then s.(ok := false)
      else
        var w := wire(s.writes, size);
        var counted := s.(writes := s.writes + 1, confirmed := s.confirmed[d := BytesOf(s, d) + w.bytesWritten]);
        if w.status == COMPLETE then counted.(bytesWritten := s.bytesWritten + w.bytesWritten, completed := s.completed + [d])
        else if w.status == PARTIAL then counted.(ok := false, unknown := s.unknown + [d])
        else counted.(ok := false)
    case CutStep(feedBytes) =>
      var feed := wire(s.writes, feedBytes);
      var cutTried := feed.status == COMPLETE;
      var cut := wire(s.writes + 1, CUT_COMMAND_BYTES);
      var next := if cutTried then s.writes + 2 else s.writes + 1;
      if cutTried && cut.status == COMPLETE then
        s.(writes := next, bytesWritten := s.bytesWritten + feed.bytesWritten + cut.bytesWritten)
      else
        var fallback := wire(next, FALLBACK_BYTES);
        if fallback.status != COMPLETE then s.(writes := next + 1, ok := false)
        else s.(writes := next + 1,
                bytesWritten := s.bytesWritten + feed.bytesWritten + (if cutTried then cut.bytesWritten else 0) + fallback.bytesWritten)
    case UnknownStep => s.(ok := false)
  }

  /** The job stops at the first step that fails. */
  function RunSteps(steps: seq<Step>, wire: Wire): JobState {
    if steps == [] then START
    else
      var s := RunSteps(steps[..|steps| - 1], wire);
      if s.ok then RunStep(s, steps[|steps| - 1], wire) else s
  }

  method PrintJob(steps: seq<Step>, wire: Wire)
      returns (ok: bool, bytesWritten: nat, completedDocuments: seq<Document>, unknownDocuments: seq<Document>)
    ensures var s := RunSteps(steps, wire);
            ok == s.ok && bytesWritten == s.bytesWritten && completedDocuments == s.completed && unknownDocuments == s.unknown
  {
    completedDocuments, unknownDocuments, bytesWritten := [], [], 0;
    var writes := 0;
    ghost var all := RunSteps(steps, wire);
    for index := 0 to |steps|
      invariant var s := RunSteps(steps[..index], wire);
        s.ok && bytesWritten == s.bytesWritten && completedDocuments == s.completed && unknownDocuments == s.unknown && writes == s.writes
    {
      assert steps[..index + 1][..index] == steps[..index];
      ghost var before := RunSteps(steps[..index], wire);
      ghost var after := RunStep(before, steps[index], wire);
      assert RunSteps(steps[..index + 1], wire) == after;
      if !after.ok { StoppedJob(steps, index + 1, wire); }
      match steps[index]
      case DocumentStep(document, size) =>
        if size == 0 { return false, bytesWritten, completedDocuments, unknownDocuments; }
        var transfer := wire(writes, size);
        writes := writes + 1;
        if transfer.status != COMPLETE {
          if transfer.status == PARTIAL { unknownDocuments := unknownDocuments + [document]; }
          return false, bytesWritten, completedDocuments, unknownDocuments;
        }
        bytesWritten := bytesWritten + transfer.bytesWritten;
        completedDocuments := completedDocuments + [document];
      case CutStep(feedBytes) =>
        var feed := wire(writes, feedBytes);
        writes := writes + 1;
        var cutBytes, done := 0, false;
        if feed.status == COMPLETE {
          var cut := wire(writes, CUT_COMMAND_BYTES);
          writes := writes + 1;
          cutBytes, done := cut.bytesWritten, cut.status == COMPLETE;
        }
        if done {
          bytesWritten := bytesWritten + feed.bytesWritten + cutBytes;
        } else {
          var fallback := wire(writes, FALLBACK_BYTES);
          writes := writes + 1;
          if fallback.status != COMPLETE { return false, bytesWritten, completedDocuments, unknownDocuments; }
          bytesWritten := bytesWritten + feed.bytesWritten + cutBytes + fallback.bytesWritten;
        }
      case UnknownStep =>
        return false, bytesWritten, completedDocuments, unknownDocuments;
    }
    assert steps[..|steps|] == steps;
    return true, bytesWritten, completedDocuments, unknownDocuments;
  }

  lemma {:induction false} StoppedJob(steps: seq<Step>, n: nat, wire: Wire)
    requires n <= |steps| && !RunSteps(steps[..n], wire).ok
    ensures RunSteps(steps, wire) == RunSteps(steps[..n], wire)
  {
    if n < |steps| {
      assert steps[..|steps| - 1][..n] == steps[..n];
      StoppedJob(steps[..|steps| - 1], n, wire);
    } else {
      assert steps[..n] == steps;
    }
  }

  /**
   A document the job reports neither completed nor unknown got no confirmed byte, and a
   completed one got all the bytes of at least one of its steps.
   */
  lemma {:induction false} JobAccounting(steps: seq<Step>, wire: Wire, d: Document)
    requires HonestWire(wire)
    ensures var s := RunSteps(steps, wire);
            && (d !in s.completed && d !in s.unknown ==> BytesOf(s, d) == 0)
            && (d in s.completed ==> exists k :: 0 <= k < |steps| && steps[k].DocumentStep? && steps[k].document == d
                                                 && 0 < steps[k].bytes <= BytesOf(s, d))
            && (d in s.unknown ==> 0 < BytesOf(s, d) && !s.ok)
  {
    if steps != [] {
      var n := |steps| - 1;
      var before, after := RunSteps(steps[..n], wire), RunSteps(steps, wire);
      JobAccounting(steps[..n], wire, d);
      if d in before.completed {
        var k :| 0 <= k < n && steps[..n][k].DocumentStep? && steps[..n][k].document == d && 0 < steps[..n][k].bytes <= BytesOf(before, d);
        assert steps[k] == steps[..n][k];
      }
      if before.ok && steps[n].DocumentStep? {
        assert Honest(wire(before.writes, steps[n].bytes), steps[n].bytes);
      }
    }
  }

  /**
   Begin, job, fail: a selected document offered for another print was never confirmed a
   single byte by the device; whatever got some bytes is printed or to be checked by hand.
   */
  lemma {:induction false} RetryableMeansNothingSent(p: OrderPrinting, selection: seq<Document>, steps: seq<Step>, wire: Wire,
                                  beginAt: int, failAt: int, d: Document)
    requires HonestWire(wire) && d in selection
    ensures var s := RunSteps(steps, wire);
            var after := Apply(Apply(p, Begin(selection, beginAt)), Fail(selection, s.completed, s.unknown, failAt));
            && (Retryable(after, d) ==> BytesOf(s, d) == 0)
            && (0 < BytesOf(s, d) && !Settled(p.Get(d)) ==> after.Get(d) in {Printed, Unknown})
            && (after.Get(d) == Printed ==> p.Get(d) == Printed || d in s.completed)
  {
    hide RunSteps, DeriveStatus;
    JobAccounting(steps, wire, d);
    var s := RunSteps(steps, wire);
    var begun := Apply(p, Begin(selection, beginAt));
    var op := Fail(selection, s.completed, s.unknown, failAt);
    RewriteDerives(Stamped(p, Begin(selection, beginAt)), selection, Give(Begin(selection, beginAt)));
    RewriteDerives(Stamped(begun, op), selection, Give(op));
  }
}
