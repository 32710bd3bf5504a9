/** Waiting for the validation code of a transaction on the filtered-block stream of one peer. */
module Delivery {
  import opened Outcomes

  const VALID := 0
  const NO_CODE := -1

  datatype FilteredTx = FilteredTx(txId: string, code: int)

  /** What a receive on the stream can yield. */
  datatype Event = Block(txs: seq<FilteredTx>) | Status(status: int) | Unknown | StreamError

  // ---- What a stream says about a transaction ----

  /** The code of the first entry of the transaction in a block. */
  function CodeIn(txs: seq<FilteredTx>, txId: string): Option<int> {
    if txs == [] then None
    else if txs[0].txId == txId then Some(txs[0].code)
    else CodeIn(txs[1..], txId)
  }

  /** What one event decides: a code, the end of waiting without a code, or nothing yet. */
  function Decides(e: Event, txId: string): Option<int> {
    match e
    case Block(txs) => CodeIn(txs, txId)
    case Status(_) => Some(NO_CODE)
    case StreamError => Some(NO_CODE)
    case Unknown => None
  }

  function Verdict(stream: seq<Event>, txId: string): Option<int> {
    if stream == [] then None
    else if Decides(stream[0], txId).Some? then Decides(stream[0], txId)
    else Verdict(stream[1..], txId)
  }

  /** The stream delivered a block in which the transaction has the given code. */
  ghost predicate Reports(stream: seq<Event>, txId: string, code: int) {
    exists i, j ::
      0 <= i < |stream| && stream[i].Block? && 0 <= j < |stream[i].txs| && stream[i].txs[j] == FilteredTx(txId, code)
  }

  lemma {:induction false} CodeIsListed(txs: seq<FilteredTx>, txId: string)
    requires CodeIn(txs, txId).Some?
    ensures exists j :: 0 <= j < |txs| && txs[j] == FilteredTx(txId, CodeIn(txs, txId).value)
  {
    if txs[0].txId != txId {
      CodeIsListed(txs[1..], txId);
      var j :| 0 <= j < |txs| - 1 && txs[1..][j] == FilteredTx(txId, CodeIn(txs, txId).value);
      assert txs[j + 1] == FilteredTx(txId, CodeIn(txs, txId).value);
    }
  }

  /** A verdict other than the error code was reported by the peer, in a block. */
  lemma {:induction false} VerdictIsReported(stream: seq<Event>, txId: string)
    requires Verdict(stream, txId).Some? && Verdict(stream, txId).value != NO_CODE
    ensures Reports(stream, txId, Verdict(stream, txId).value)
  {
    var code := Verdict(stream, txId).value;
    if Decides(stream[0], txId).Some? {
      CodeIsListed(stream[0].txs, txId);
      var j :| 0 <= j < |stream[0].txs| && stream[0].txs[j] == FilteredTx(txId, code);
      assert stream[0].Block?;
    } else {
      VerdictIsReported(stream[1..], txId);
      var i, j :| 0 <= i < |stream[1..]| && stream[1..][i].Block? && 0 <= j < |stream[1..][i].txs|
                  && stream[1..][i].txs[j] == FilteredTx(txId, code);
      assert stream[i + 1].txs[j] == FilteredTx(txId, code);
    }
  }

  /** A verdict once reached is final, and until then each event is judged on its own. */
  lemma {:induction false} VerdictSnoc(stream: seq<Event>, e: Event, txId: string)
    ensures Verdict(stream + [e], txId)
         == if Verdict(stream, txId).Some? then Verdict(stream, txId) else Decides(e, txId)
  {
    if stream == [] {
    } else {
      assert (stream + [e])[1..] == stream[1..] + [e];
      VerdictSnoc(stream[1..], e, txId);
    }
  }

  // ---- What the loop waits for ----

  /** The event ends the wait: a status, an error, or a block that lists the transaction. */
  predicate EndsWait(e: Event, txId: string) {
    e.Status? || e.StreamError? || (e.Block? && exists j :: 0 <= j < |e.txs| && e.txs[j].txId == txId)
  }

  /** Event i is the first one that ends the wait. */
  predicate EndsAt(stream: seq<Event>, txId: string, i: int) {
    0 <= i < |stream| && EndsWait(stream[i], txId) && forall k | 0 <= k < i :: !EndsWait(stream[k], txId)
  }

  /** Entry j is the first one of the transaction in the block. */
  predicate FirstEntry(txs: seq<FilteredTx>, txId: string, j: int) {
    0 <= j < |txs| && txs[j].txId == txId && forall k | 0 <= k < j :: txs[k].txId != txId
  }

  lemma {:induction false} CodeOfFirstEntry(txs: seq<FilteredTx>, txId: string)
    ensures CodeIn(txs, txId) == None <==> forall j | 0 <= j < |txs| :: txs[j].txId != txId
    ensures forall j | FirstEntry(txs, txId, j) :: CodeIn(txs, txId) == Some(txs[j].code)
  {
    if txs == [] {
    } else {
      CodeOfFirstEntry(txs[1..], txId);
      assert forall j | 0 < j < |txs| :: txs[j] == txs[1..][j - 1];
      forall j | FirstEntry(txs, txId, j) ensures CodeIn(txs, txId) == Some(txs[j].code) {
        assert j > 0 ==> FirstEntry(txs[1..], txId, j - 1);
      }
    }
  }

  /** The verdict in terms of the events alone. */
  lemma {:induction false} VerdictMeans(stream: seq<Event>, txId: string)
    ensures Verdict(stream, txId) == None <==> forall i | 0 <= i < |stream| :: !EndsWait(stream[i], txId)
    ensures forall i | EndsAt(stream, txId, i) && (stream[i].Status? || stream[i].StreamError?) ::
              Verdict(stream, txId) == Some(-1)
    ensures forall i, j | EndsAt(stream, txId, i) && stream[i].Block? && FirstEntry(stream[i].txs, txId, j) ::
              Verdict(stream, txId) == Some(stream[i].txs[j].code)
  {
    if stream == [] {
    } else {
      VerdictMeans(stream[1..], txId);
      assert forall i | 0 < i < |stream| :: stream[i] == stream[1..][i - 1];
      DecidesMeans(stream[0], txId);
      forall i | EndsAt(stream, txId, i) && i > 0
        ensures EndsAt(stream[1..], txId, i - 1) && !EndsWait(stream[0], txId) && stream[i] == stream[1..][i - 1]
      {
      }
    }
  }

  lemma DecidesMeans(e: Event, txId: string)
    ensures Decides(e, txId).Some? <==> EndsWait(e, txId)
    ensures e.Status? || e.StreamError? ==> Decides(e, txId) == Some(-1)
    ensures e.Block? ==> forall j | FirstEntry(e.txs, txId, j) :: Decides(e, txId) == Some(e.txs[j].code)
  {
    if e.Block? {
      CodeOfFirstEntry(e.txs, txId);
    }
  }

  // ---- The receiving loop ----

  /** None: the stream so far decides nothing, and the loop would go on receiving. */
  method GetTxValidationCode(stream: seq<Event>, txId: string) returns (code: Option<int>)
    ensures code == Verdict(stream, txId)
    ensures code == None <==> forall i | 0 <= i < |stream| :: !EndsWait(stream[i], txId)
    ensures forall i | EndsAt(stream, txId, i) && (stream[i].Status? || stream[i].StreamError?) :: code == Some(-1)
    ensures forall i, j | EndsAt(stream, txId, i) && stream[i].Block? && FirstEntry(stream[i].txs, txId, j) ::
              code == Some(stream[i].txs[j].code)
  {
    hide EndsWait, EndsAt, FirstEntry;
    VerdictMeans(stream, txId);
    for n := 0 to |stream|
      invariant Verdict(stream[..n], txId) == None
    {
      assert stream[..n + 1] == stream[..n] + [stream[n]];
      VerdictSnoc(stream[..n], stream[n], txId);
      assert stream == stream[..n + 1] + stream[n + 1..];
      VerdictStays(stream[..n + 1], stream[n + 1..], txId);
      match stream[n] {
        case Block(txs) =>
          for k := 0 to |txs|
            invariant CodeIn(txs, txId) == CodeIn(txs[k..], txId)
          {
            assert txs[k..][1..] == txs[k + 1..];
            if txs[k].txId == txId {
              return Some(txs[k].code);
            }
          }
        case Status(_) =>
          return Some(NO_CODE);
        case StreamError =>
          return Some(NO_CODE);
        case Unknown =>
      }
    }
    assert stream[..|stream|] == stream;
    return None;
  }

  lemma {:induction false} VerdictStays(stream: seq<Event>, more: seq<Event>, txId: string)
    ensures Verdict(stream, txId).Some? ==> Verdict(stream + more, txId) == Verdict(stream, txId)
  {
    if stream == [] {
    } else {
      assert (stream + more)[1..] == stream[1..] + more;
      VerdictStays(stream[1..], more, txId);
    }
  }
}
