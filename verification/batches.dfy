/**
 * The batch read loop of a single file: repeated `reader.Read` calls into a
 * reused row buffer, each followed by the row loop over the first `n` rows.
 * The reader is a foreign library, so its answers are an input: the sequence
 * of results of successive `Read` calls.
 */
module Batches {
  import opened Wrappers
  import opened Market
  import opened Aggregation

  /** The error text the loop treats as end of file. */
  const EofMessage: string := "EOF"

  /**
   * One answer of `reader.Read(rows)`: the count `n`, the buffer contents
   * after the call, and the error, if any, by its message.
   */
  datatype Read = Read(n: nat, buffer: seq<Row>, err: Option<string>)

  /** Why processing a file stops the program. */
  datatype Abort =
    | ReadFailed(message: string)               // `log.Fatalf` on a non-EOF read error
    | IndexOutOfRange(index: nat, length: nat)  // Go's bounds-check panic on `rows[i]`

  /** The read ends the loop: any error, or a count of zero. */
  predicate Stops(rd: Read) {
    rd.err.Some? || rd.n == 0
  }

  /** The read makes the program abort. */
  predicate Aborts(rd: Read) {
    (rd.err.Some? && rd.err.value != EofMessage) || (rd.err.None? && rd.n > |rd.buffer|)
  }

  /** The loop issues the `i`-th read: none of the earlier ones stopped it. */
  predicate Issued(calls: seq<Read>, i: int) {
    forall j :: 0 <= j < i && j < |calls| ==> !Stops(calls[j])
  }

  /**
   * The read loop from state `s`.  An error whose text is "EOF" ends the loop
   * without processing that call's rows; any other error aborts; a count of
   * zero ends the loop; otherwise the first `n` buffered rows are processed
   * in order.  When the recorded answers run out the reader is exhausted.
   */
  function Run(s: State, calls: seq<Read>): (r: Result<State, Abort>)
    ensures r.Failure? && r.error.ReadFailed? ==> r.error.message != EofMessage
    ensures r.Failure? && r.error.IndexOutOfRange? ==> r.error.index == r.error.length
    decreases |calls|
  {
    if |calls| == 0 then Success(s)
    else
      var rd := calls[0];
      match rd.err
      case Some(message) =>
        if message == EofMessage then Success(s) else Failure(ReadFailed(message))
      case None =>
        if rd.n == 0 then Success(s)
        else if rd.n > |rd.buffer| then Failure(IndexOutOfRange(|rd.buffer|, |rd.buffer|))
        else Run(Fold(s, rd.buffer[..rd.n]), calls[1..])
  }

  /** The rows the loop hands to the row loop: the first `n` of every batch before the stop. */
  function Delivered(calls: seq<Read>): seq<Row>
    decreases |calls|
  {
    if |calls| == 0 || Stops(calls[0]) then []
    else
      var rd := calls[0];
      (if rd.n <= |rd.buffer| then rd.buffer[..rd.n] else rd.buffer) + Delivered(calls[1..])
  }

  /**
   * Batching is invisible: a run that completes ends in the same state as
   * folding the concatenation of every batch's first-`n` prefix.
   */
  lemma {:induction false} RunFlattens(s: State, calls: seq<Read>)
    ensures Run(s, calls).Success? ==> Run(s, calls) == Success(Fold(s, Delivered(calls)))
    decreases |calls|
  {
    if |calls| > 0 && !Stops(calls[0]) && calls[0].n <= |calls[0].buffer| {
      var rd := calls[0];
      RunFlattens(Fold(s, rd.buffer[..rd.n]), calls[1..]);
      FoldAppend(s, rd.buffer[..rd.n], Delivered(calls[1..]));
    }
  }

  /**
   * A run completes exactly when no issued read aborts, whatever the rows
   * contain and whatever state it starts from.
   */
  lemma {:induction false} RunSucceedsIff(s: State, calls: seq<Read>)
    ensures Run(s, calls).Success? <==>
      forall i :: 0 <= i < |calls| && Issued(calls, i) ==> !Aborts(calls[i])
    decreases |calls|
  {
    if |calls| > 0 {
      var rd := calls[0];
      var rest := calls[1..];
      assert Issued(calls, 0);
      if Stops(rd) {
        forall i | 0 < i < |calls| ensures !Issued(calls, i) { }
      } else if rd.n <= |rd.buffer| {
        RunSucceedsIff(Fold(s, rd.buffer[..rd.n]), rest);
        forall i | 0 <= i < |rest|
          ensures Issued(rest, i) <==> Issued(calls, i + 1)
        {
          if Issued(rest, i) {
            forall j | 0 <= j < i + 1 ensures !Stops(calls[j]) {
              if j > 0 { assert calls[j] == rest[j - 1]; }
            }
          }
          if Issued(calls, i + 1) {
            forall j | 0 <= j < i ensures !Stops(rest[j]) {
              assert rest[j] == calls[j + 1];
            }
          }
        }
        if forall i :: 0 <= i < |rest| && Issued(rest, i) ==> !Aborts(rest[i]) {
          forall i | 0 <= i < |calls| && Issued(calls, i) ensures !Aborts(calls[i]) {
            if i > 0 { assert calls[i] == rest[i - 1]; }
          }
        } else {
          var i :| 0 <= i < |rest| && Issued(rest, i) && Aborts(rest[i]);
          assert calls[i + 1] == rest[i];
        }
      }
    }
  }

  /** Reads after the one that stops the loop are never consulted. */
  lemma {:induction false} ReadsAfterStopIgnored(s: State, calls: seq<Read>, i: nat)
    requires i < |calls| && Stops(calls[i])
    ensures Run(s, calls) == Run(s, calls[..i + 1])
    ensures Delivered(calls) == Delivered(calls[..i + 1])
    decreases i
  {
    var rd := calls[0];
    assert calls[..i + 1][0] == rd;
    if i > 0 && !Stops(rd) {
      assert calls[1..][..i] == calls[..i + 1][1..];
      var next := if rd.n <= |rd.buffer| then Fold(s, rd.buffer[..rd.n]) else s;
      ReadsAfterStopIgnored(next, calls[1..], i - 1);
    }
  }

  /**
   * The read loop as the program runs it, with the reused buffer and the
   * inner row loop; it computes `Run` from the empty state.
   */
  method ProcessFile(calls: seq<Read>) returns (result: Result<State, Abort>)
    ensures result == Run(Init, calls)
    ensures result.Success? ==> result.value == Fold(Init, Delivered(calls))
  {
    var st := Init;
    var j := 0;
    while true
      invariant 0 <= j <= |calls|
      invariant Run(st, calls[j..]) == Run(Init, calls)
      decreases |calls| - j
    {
      if j == |calls| {
        result := Success(st);
        break;
      }
      var rd := calls[j];
      assert calls[j..][0] == rd && calls[j..][1..] == calls[j + 1..];
      if rd.err.Some? {
        if rd.err.value == EofMessage {
          result := Success(st);
          break;
        }
        result := Failure(ReadFailed(rd.err.value));
        break;
      }
      if rd.n == 0 {
        result := Success(st);
        break;
      }
      var before := st;
      var i := 0;
      while i < rd.n
        invariant 0 <= i <= rd.n && i <= |rd.buffer|
        invariant st == Fold(before, rd.buffer[..i])
      {
        if i >= |rd.buffer| {
          result := Failure(IndexOutOfRange(i, |rd.buffer|));
          RunFlattens(Init, calls);
          return;
        }
        assert rd.buffer[..i + 1][..i] == rd.buffer[..i];
        st := Step(st, rd.buffer[i]);
        i := i + 1;
      }
      j := j + 1;
    }
    RunFlattens(Init, calls);
  }
}
