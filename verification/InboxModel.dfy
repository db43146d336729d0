/** The durable Interface inbox of `core/interface.py`: one append-only file, a
    committed offset on disk, and records travelling through memory on their way
    to being handled. */
module InboxModel {
  import opened Common

  type Bytes = seq<nat>

  const NEWLINE: nat := 10
  const INBOX_READ_CHUNK_BYTES: nat := 4_194_304

  /** One complete line, by its byte range in the file. */
  datatype Record = Record(start: nat, end: nat)

  /** `scan` is None when the process has not read the file yet. */
  datatype Inbox = Inbox(
    file: Bytes,
    committed: nat,
    scan: Option<nat>,
    scanned: seq<Record>,
    queue: seq<Record>,
    retry: seq<Record>,
    hand: seq<Record>)

  /** The range is a newline-terminated line without an inner newline. */
  ghost predicate IsLine(file: Bytes, start: nat, end: nat) {
    && start < end <= |file|
    && file[end - 1] == NEWLINE
    && forall i :: start <= i < end - 1 ==> file[i] != NEWLINE
  }

  /** First position at or after `from` that holds a newline, or the file's end. */
  function LineBreak(file: Bytes, from: nat): (k: nat)
    requires from <= |file|
    ensures from <= k <= |file|
    ensures k < |file| ==> file[k] == NEWLINE
    ensures forall i :: from <= i < k ==> file[i] != NEWLINE
    decreases |file| - from
  {
    if from == |file| || file[from] == NEWLINE then from else LineBreak(file, from + 1)
  }

  /** All complete lines from a position on; a line still being written is not one. */
  function Records(file: Bytes, from: nat): seq<Record>
    requires from <= |file|
    decreases |file| - from
  {
    var k := LineBreak(file, from);
    if k == |file| then [] else [Record(from, k + 1)] + Records(file, k + 1)
  }

  /** Consecutive lines leading from one offset to another. */
  ghost predicate Chain(file: Bytes, from: nat, lines: seq<Record>, to: nat)
    decreases |lines|
  {
    if lines == [] then from == to <= |file|
    else lines[0].start == from && IsLine(file, from, lines[0].end) && Chain(file, lines[0].end, lines[1..], to)
  }

  /** The offset the next scan starts from. */
  function ScanFrom(b: Inbox): nat {
    if b.scan.Some? then b.scan.value else b.committed
  }

  /** Everything read but not committed, in the order it will be handled. */
  function InFlight(b: Inbox): seq<Record> {
    b.hand + b.retry + b.queue + b.scanned
  }

  ghost predicate InboxInv(b: Inbox) {
    && b.committed <= |b.file|
    && Chain(b.file, b.committed, InFlight(b), ScanFrom(b))
  }

  // --------------------------------------------------------------------- chains

  lemma {:induction false} ChainBounds(file: Bytes, from: nat, lines: seq<Record>, to: nat)
    requires Chain(file, from, lines, to)
    ensures from <= to <= |file|
    ensures lines != [] ==> from < to
    ensures forall r :: r in lines ==> from <= r.start < r.end <= to
    decreases |lines|
  {
    if lines != [] {
      ChainBounds(file, lines[0].end, lines[1..], to);
    }
  }

  lemma {:induction false} ChainConcat(file: Bytes, from: nat, a: seq<Record>, mid: nat, b: seq<Record>, to: nat)
    requires Chain(file, from, a, mid) && Chain(file, mid, b, to)
    ensures Chain(file, from, a + b, to)
    decreases |a|
  {
    if a == [] {
      assert a + b == b;
    } else {
      assert (a + b)[1..] == a[1..] + b;
      ChainConcat(file, a[0].end, a[1..], mid, b, to);
    }
  }

  /** A line stays the line it was, and the offsets stay where they were. */
  lemma {:induction false} ChainSurvivesAppend(file: Bytes, more: Bytes, from: nat, lines: seq<Record>, to: nat)
    requires Chain(file, from, lines, to)
    ensures Chain(file + more, from, lines, to)
    decreases |lines|
  {
    if lines != [] {
      ChainSurvivesAppend(file, more, lines[0].end, lines[1..], to);
    }
  }

  /** Reading from the start of a chain yields the chain first. */
  lemma {:induction false} ChainThenRecords(file: Bytes, from: nat, lines: seq<Record>, to: nat)
    requires Chain(file, from, lines, to)
    ensures from <= to <= |file|
    ensures Records(file, from) == lines + Records(file, to)
    decreases |lines|
  {
    if lines != [] {
      ChainBounds(file, from, lines, to);
      ChainThenRecords(file, lines[0].end, lines[1..], to);
      LineBreakUnique(file, from, lines[0].end - 1);
    }
  }

  /** One more line read onto the end of a chain. */
  lemma ChainSnoc(file: Bytes, from: nat, lines: seq<Record>, at: nat)
    requires Chain(file, from, lines, at) && at <= |file| && LineBreak(file, at) < |file|
    ensures var end := LineBreak(file, at) + 1; at < end && Chain(file, from, lines + [Record(at, end)], end)
  {
    var end := LineBreak(file, at) + 1;
    assert Chain(file, at, [Record(at, end)], end);
    ChainConcat(file, from, lines, at, [Record(at, end)], end);
  }

  lemma {:induction false} LineBreakUnique(file: Bytes, from: nat, k: nat)
    requires from <= k < |file| && file[k] == NEWLINE && forall i :: from <= i < k ==> file[i] != NEWLINE
    ensures LineBreak(file, from) == k
    decreases k - from
  {
    if from < k {
      LineBreakUnique(file, from + 1, k);
    }
  }

  /** The refinement: what is still to be handled is exactly what the file holds
      after the committed offset, in file order. */
  lemma PipelineRefinesTheFile(b: Inbox)
    requires InboxInv(b)
    ensures ScanFrom(b) <= |b.file|
    ensures Records(b.file, b.committed) == b.hand + b.retry + b.queue + b.scanned + Records(b.file, ScanFrom(b))
  {
    ChainThenRecords(b.file, b.committed, InFlight(b), ScanFrom(b));
  }

  // ----------------------------------------------------------------- operations

  function Append(b: Inbox, more: Bytes): Inbox {
    b.(file := b.file + more)
  }

  function Take(b: Inbox, lines: seq<Record>, to: nat): Inbox {
    b.(scan := Some(to), scanned := b.scanned + lines)
  }

  function Queue(b: Inbox): Inbox {
    b.(queue := b.queue + b.scanned, scanned := [])
  }

  function Least(a: nat, b: nat): nat {
    if a <= b then a else b
  }

  /** Up to `limit` records, retried ones first. */
  function Drain(b: Inbox, limit: nat): Inbox {
    var r := Least(limit, |b.retry|);
    var q := Least(limit - r, |b.queue|);
    b.(hand := b.hand + b.retry[..r] + b.queue[..q], retry := b.retry[r..], queue := b.queue[q..])
  }

  function Commit(b: Inbox): Inbox
    requires b.hand != []
  {
    b.(committed := if b.committed >= b.hand[0].end then b.committed else b.hand[0].end, hand := b.hand[1..])
  }

  function RetryBatch(b: Inbox): Inbox {
    b.(retry := b.hand + b.retry, hand := [])
  }

  /** The process dies: only the file and the committed offset remain. */
  function Restart(b: Inbox): Inbox {
    Inbox(b.file, b.committed, None, [], [], [], [])
  }

  lemma AppendKeepsInv(b: Inbox, more: Bytes)
    requires InboxInv(b)
    ensures InboxInv(Append(b, more))
  {
    ChainSurvivesAppend(b.file, more, b.committed, InFlight(b), ScanFrom(b));
  }

  lemma TakeKeepsInv(b: Inbox, lines: seq<Record>, to: nat)
    requires InboxInv(b) && Chain(b.file, ScanFrom(b), lines, to)
    ensures InboxInv(Take(b, lines, to))
  {
    ChainConcat(b.file, b.committed, InFlight(b), ScanFrom(b), lines, to);
    assert InFlight(Take(b, lines, to)) == InFlight(b) + lines by { FlightGrows(b, lines, to); }
    TakenInv(b, lines, to);
  }

  lemma FlightGrows(b: Inbox, lines: seq<Record>, to: nat)
    ensures InFlight(Take(b, lines, to)) == InFlight(b) + lines
  {
    var front := b.hand + b.retry + b.queue;
    assert front + (b.scanned + lines) == (front + b.scanned) + lines;
  }

  lemma TakenInv(b: Inbox, lines: seq<Record>, to: nat)
    requires b.committed <= |b.file| && Chain(b.file, b.committed, InFlight(Take(b, lines, to)), to)
    ensures InboxInv(Take(b, lines, to))
  {
  }

  lemma QueueKeepsInv(b: Inbox)
    requires InboxInv(b)
    ensures InboxInv(Queue(b)) && InFlight(Queue(b)) == InFlight(b)
  {
    assert InFlight(Queue(b)) == InFlight(b);
  }

  /** Cutting a front off two lists in turn leaves their concatenation as it was. */
  lemma FrontFirst(retry: seq<Record>, queue: seq<Record>, limit: nat)
    ensures var r := Least(limit, |retry|);
            var q := Least(limit - r, |queue|);
            retry[..r] + queue[..q] + retry[r..] + queue[q..] == retry + queue
  {
    var r := Least(limit, |retry|);
    var q := Least(limit - r, |queue|);
    if r < |retry| {
      assert q == 0 && retry[..r] + queue[..q] + retry[r..] == retry;
    } else {
      assert retry[..r] + queue[..q] + retry[r..] + queue[q..] == retry + (queue[..q] + queue[q..]);
    }
  }

  /** Draining reorders nothing: a batch is the front of what is in flight.  It is
      only called with an empty hand, or the retried records would overtake. */
  lemma DrainKeepsInv(b: Inbox, limit: nat)
    requires InboxInv(b) && b.hand == []
    ensures InboxInv(Drain(b, limit)) && InFlight(Drain(b, limit)) == InFlight(b)
    ensures |Drain(b, limit).hand| <= limit
    ensures Drain(b, limit).hand == [] ==> limit == 0 || (b.retry == [] && b.queue == [])
  {
    var d := Drain(b, limit);
    assert InFlight(d) == InFlight(b) by {
      FrontFirst(b.retry, b.queue, limit);
      assert b.hand == [] && d.scanned == b.scanned;
      assert d.hand + d.retry + d.queue == b.retry + b.queue;
    }
    SameFlight(b, d);
  }

  /** A batch is full unless nothing is left, and takes queued records only once no
      retried one is left. */
  lemma DrainTakes(b: Inbox, limit: nat)
    requires b.hand == []
    ensures var d := Drain(b, limit);
            && d.hand + d.retry + d.queue == b.retry + b.queue
            && |d.hand| == Least(limit, |b.retry| + |b.queue|)
            && (d.retry != [] ==> d.queue == b.queue)
  {
    FrontFirst(b.retry, b.queue, limit);
  }

  lemma SameFlight(b: Inbox, d: Inbox)
    requires InboxInv(b) && InFlight(d) == InFlight(b)
    requires d.file == b.file && d.committed == b.committed && d.scan == b.scan
    ensures InboxInv(d)
  {
  }

  lemma CommitKeepsInv(b: Inbox)
    requires InboxInv(b) && b.hand != []
    ensures InboxInv(Commit(b))
    ensures Commit(b).committed == b.hand[0].end > b.committed
    ensures InFlight(Commit(b)) == InFlight(b)[1..]
    ensures ScanFrom(b) == ScanFrom(Commit(b))
  {
    assert InFlight(b)[0] == b.hand[0];
    assert InFlight(Commit(b)) == InFlight(b)[1..];
    ChainBounds(b.file, b.committed, InFlight(b), ScanFrom(b));
  }

  lemma RetryKeepsInv(b: Inbox)
    requires InboxInv(b)
    ensures InboxInv(RetryBatch(b)) && InFlight(RetryBatch(b)) == InFlight(b)
  {
    assert InFlight(RetryBatch(b)) == InFlight(b);
  }

  lemma RestartKeepsInv(b: Inbox)
    requires InboxInv(b)
    ensures InboxInv(Restart(b))
    ensures Records(Restart(b).file, Restart(b).committed) == Records(b.file, b.committed)
  {
  }

  // -------------------------------------------------------------- the live inbox

  method PopFront(records: seq<Record>, room: nat) returns (taken: seq<Record>, left: seq<Record>)
    ensures taken == records[..Least(room, |records|)] && left == records[Least(room, |records|)..]
  {
    taken, left := [], records;
    while left != [] && |taken| < room
      invariant |taken| <= Least(room, |records|)
      invariant taken == records[..|taken|] && left == records[|taken|..]
      decreases |left|
    {
      taken := taken + [left[0]];
      left := left[1..];
    }
  }

  class InboxConsumer {
    var file: Bytes
    var committed: nat
    var scan: Option<nat>
    var scanned: seq<Record>
    var eventQueue: seq<Record>
    var retryRecords: seq<Record>
    var hand: seq<Record>

    ghost function Snapshot(): Inbox
      reads this
    {
      Inbox(file, committed, scan, scanned, eventQueue, retryRecords, hand)
    }

    ghost predicate Valid()
      reads this
    {
      InboxInv(Snapshot())
    }

    constructor ()
      ensures Valid() && file == [] && committed == 0
    {
      file, committed, scan := [], 0, None;
      scanned, eventQueue, retryRecords, hand := [], [], [], [];
    }

    /** `readline` at an offset: the end of the line, or None for a partial one. */
    method ReadLine(from: nat) returns (end: Option<nat>)
      requires from <= |file|
      ensures end == if LineBreak(file, from) == |file| then None else Some(LineBreak(file, from) + 1)
    {
      var k := from;
      while k < |file| && file[k] != NEWLINE
        invariant from <= k <= |file|
        invariant LineBreak(file, k) == LineBreak(file, from)
      {
        k := k + 1;
      }
      end := if k == |file| then None else Some(k + 1);
    }

    /** At most `maxRecords` complete lines from an offset, and no further one once a
        chunk of bytes is passed. */
    method ReadLines(from: nat, maxRecords: nat) returns (records: seq<Record>, at: nat)
      requires from <= |file|
      ensures from <= at <= |file| && |records| <= maxRecords
      ensures Chain(file, from, records, at)
      ensures |records| < maxRecords && at - from < INBOX_READ_CHUNK_BYTES ==> Records(file, at) == []
      ensures forall r :: r in records ==> r.start - from < INBOX_READ_CHUNK_BYTES
      ensures records == [] ==> at == from
    {
      records, at := [], from;
      var bytesRead, more := 0, true;
      while more && |records| < maxRecords && bytesRead < INBOX_READ_CHUNK_BYTES
        invariant from <= at <= |file| && |records| <= maxRecords
        invariant Chain(file, from, records, at)
        invariant bytesRead == at - from
        invariant !more ==> Records(file, at) == []
        invariant records == [] ==> at == from
        invariant forall r :: r in records ==> r.start - from < INBOX_READ_CHUNK_BYTES
        decreases more, |file| - at
      {
        var end := ReadLine(at);
        match end {
          case None =>
            more := false;
          case Some(e) =>
            ChainSnoc(file, from, records, at);
            bytesRead := bytesRead + (e - at);
            records := records + [Record(at, e)];
            at := e;
        }
      }
    }

    /** One read of the file's new lines; acknowledges nothing. */
    method ReadNewRecords(maxRecords: nat) returns (records: seq<Record>)
      requires Valid()
      modifies this`scan, this`scanned
      ensures Valid()
      ensures Snapshot() == Take(old(Snapshot()), records, ScanFrom(Snapshot())) && scan.Some?
      ensures scanned == old(scanned) + records
      ensures ScanFrom(old(Snapshot())) <= ScanFrom(Snapshot()) <= |file|
      ensures Records(file, ScanFrom(old(Snapshot()))) == records + Records(file, ScanFrom(Snapshot()))
      ensures |records| <= maxRecords
      ensures |records| == maxRecords || Records(file, ScanFrom(Snapshot())) == []
              || ScanFrom(Snapshot()) - ScanFrom(old(Snapshot())) >= INBOX_READ_CHUNK_BYTES
    {
      ghost var before := Snapshot();
      ChainBounds(file, committed, InFlight(before), ScanFrom(before));
      var from := if scan.Some? then scan.value else committed;
      var at;
      records, at := ReadLines(from, maxRecords);
      TakeKeepsInv(before, records, at);
      ChainThenRecords(file, from, records, at);
      scan := Some(at);
      scanned := scanned + records;
    }

    method QueueRecords()
      requires Valid()
      modifies this`eventQueue, this`scanned
      ensures Valid() && Snapshot() == Queue(old(Snapshot()))
      ensures eventQueue == old(eventQueue) + old(scanned) && scanned == []
    {
      QueueKeepsInv(Snapshot());
      ghost var all := eventQueue + scanned;
      while scanned != []
        invariant eventQueue + scanned == all
        decreases |scanned|
      {
        eventQueue := eventQueue + [scanned[0]];
        scanned := scanned[1..];
      }
      assert eventQueue == all;
    }

    /** Only called between batches: first what was put back, then what is queued. */
    method DrainListenerEvents(maxEvents: nat)
      requires Valid() && hand == []
      modifies this`hand, this`retryRecords, this`eventQueue
      ensures Valid() && Snapshot() == Drain(old(Snapshot()), maxEvents)
      ensures hand + retryRecords + eventQueue == old(retryRecords) + old(eventQueue)
      ensures |hand| == Least(maxEvents, |old(retryRecords)| + |old(eventQueue)|)
      ensures retryRecords != [] ==> eventQueue == old(eventQueue)
    {
      ghost var before := Snapshot();
      var retried, retryLeft := PopFront(retryRecords, maxEvents);
      var queued, queueLeft := PopFront(eventQueue, maxEvents - |retried|);
      assert before.hand + retried + queued == retried + queued;
      hand, retryRecords, eventQueue := retried + queued, retryLeft, queueLeft;
      assert Snapshot() == Drain(before, maxEvents);
      DrainKeepsInv(before, maxEvents);
      DrainTakes(before, maxEvents);
    }

    method CommitRecord()
      requires Valid() && hand != []
      modifies this`committed, this`hand
      ensures Valid() && Snapshot() == Commit(old(Snapshot()))
      ensures old(committed) < committed == old(hand)[0].end && hand == old(hand)[1..]
    {
      CommitKeepsInv(Snapshot());
      if committed < hand[0].end {
        committed := hand[0].end;
      }
      hand := hand[1..];
    }

    /** Puts the uncommitted suffix back, ahead of everything newer. */
    method RetryInboxBatch()
      requires Valid()
      modifies this`retryRecords, this`hand
      ensures Valid() && Snapshot() == RetryBatch(old(Snapshot()))
      ensures retryRecords == old(hand) + old(retryRecords) && hand == []
    {
      RetryKeepsInv(Snapshot());
      ghost var all := hand + retryRecords;
      while hand != []
        invariant hand + retryRecords == all
        decreases |hand|
      {
        var last := hand[|hand| - 1];
        assert hand == hand[..|hand| - 1] + [last];
        retryRecords := [last] + retryRecords;
        hand := hand[..|hand| - 1];
      }
    }
  }
}
