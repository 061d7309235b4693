/** The resumable download (desktop/updater.go:395-540), against servers that answer as
    sections 14.2 and 15.3.7 of RFC 9110 say. */
module Download {
  import opened Common

  type Bytes = seq<Byte>

  const ATTEMPTS := 3
  const REPORT_STEP := 262_144

  /** A response body: the reads that brought bytes, and the last read, which ended it
      properly or with an error. */
  datatype Body = Body(chunks: seq<Bytes>, last: Bytes, complete: bool)

  datatype Answer =
    | Refused
    | Whole(length: int, body: Body)
    | Partial(size: int, body: Body)

  function Concat(chunks: seq<Bytes>): Bytes {
    if chunks == [] then [] else Concat(chunks[..|chunks| - 1]) + chunks[|chunks| - 1]
  }

  function Received(body: Body): Bytes {
    Concat(body.chunks) + body.last
  }

  /** A server of `file`, asked to continue from `have`: a whole answer carries the file, a
      partial one the rest of it, either possibly cut short with an error; sizes it gives
      are right. */
  predicate Honest(file: Bytes, have: nat, a: Answer) {
    match a
    case Refused => true
    case Whole(length, body) =>
      && Received(body) <= file && (body.complete ==> Received(body) == file)
      && (length > 0 ==> length == |file|)
    case Partial(size, body) =>
      && have <= |file| && Received(body) <= file[have..] && (body.complete ==> Received(body) == file[have..])
      && (size > 0 ==> size == |file|)
  }

  predicate Succeeds(a: Answer) {
    !a.Refused? && a.body.complete
  }

  /** The buffer after an answer: started over, continued, or as it was. */
  function AfterAnswer(buf: Bytes, a: Answer): Bytes {
    match a
    case Refused => buf
    case Whole(_, body) => Received(body)
    case Partial(_, body) => buf + Received(body)
  }

  type Server = (nat, nat) -> Answer

  /** Every attempt, from any offset the file has, is answered honestly. */
  ghost predicate HonestServer(file: Bytes, server: Server) {
    forall attempt: nat, have: nat :: have <= |file| ==> Honest(file, have, server(attempt, have))
  }

  /** The attempts from one on; `cancelled` tells after which attempts the user has
      cancelled. */
  function TryFrom(server: Server, cancelled: nat -> bool, attempt: nat, buf: Bytes): (Option<Bytes>, nat)
    requires 1 <= attempt <= ATTEMPTS
    decreases ATTEMPTS - attempt
  {
    var a := server(attempt, |buf|);
    var next := AfterAnswer(buf, a);
    if Succeeds(a) then (Some(next), attempt)
    else if cancelled(attempt) || attempt == ATTEMPTS then (None, attempt)
    else TryFrom(server, cancelled, attempt + 1, next)
  }

  /** The buffer each attempt starts from, while attempts fail. */
  function BufferAt(server: Server, attempt: nat): Bytes
    requires 1 <= attempt
  {
    if attempt == 1 then []
    else
      var buf := BufferAt(server, attempt - 1);
      AfterAnswer(buf, server(attempt - 1, |buf|))
  }

  function AnswerAt(server: Server, attempt: nat): Answer
    requires 1 <= attempt
  {
    server(attempt, |BufferAt(server, attempt)|)
  }

  lemma AnswerKeepsPrefix(file: Bytes, buf: Bytes, a: Answer)
    requires buf <= file && Honest(file, |buf|, a)
    ensures AfterAnswer(buf, a) <= file
    ensures Succeeds(a) ==> AfterAnswer(buf, a) == file
  {
    if a.Partial? {
      assert file == buf + file[|buf|..];
    }
  }

  /** The buffer is at all times a prefix of the file, whatever mix of answers came. */
  lemma {:induction false} BufferIsPrefix(file: Bytes, server: Server, attempt: nat)
    requires HonestServer(file, server) && 1 <= attempt
    ensures BufferAt(server, attempt) <= file
    ensures Succeeds(AnswerAt(server, attempt)) ==> BufferAt(server, attempt + 1) == file
  {
    if attempt > 1 {
      BufferIsPrefix(file, server, attempt - 1);
      var before := BufferAt(server, attempt - 1);
      AnswerKeepsPrefix(file, before, server(attempt - 1, |before|));
    }
    var buf := BufferAt(server, attempt);
    AnswerKeepsPrefix(file, buf, server(attempt, |buf|));
  }

  /** Attempts from `attempt` on succeed at `k`: the first that ends properly, with no
      cancellation before it. */
  predicate SucceedsAt(server: Server, cancelled: nat -> bool, attempt: nat, k: nat)
    requires 1 <= attempt
  {
    && attempt <= k <= ATTEMPTS && Succeeds(AnswerAt(server, k))
    && forall j :: attempt <= j < k ==> !Succeeds(AnswerAt(server, j)) && !cancelled(j)
  }

  lemma {:induction false} TryFromExactly(server: Server, cancelled: nat -> bool, attempt: nat)
    requires 1 <= attempt <= ATTEMPTS
    ensures var r := TryFrom(server, cancelled, attempt, BufferAt(server, attempt));
            && attempt <= r.1 <= ATTEMPTS
            && (r.0.Some? <==> SucceedsAt(server, cancelled, attempt, r.1))
            && (r.0.Some? ==> r.0.value == BufferAt(server, r.1 + 1))
            && (r.0.None? ==> forall k :: attempt <= k <= ATTEMPTS ==> !SucceedsAt(server, cancelled, attempt, k))
    decreases ATTEMPTS - attempt
  {
    var a := AnswerAt(server, attempt);
    if !Succeeds(a) && !cancelled(attempt) && attempt < ATTEMPTS {
      TryFromExactly(server, cancelled, attempt + 1);
      forall k | attempt <= k <= ATTEMPTS
        ensures SucceedsAt(server, cancelled, attempt, k) <==> k > attempt && SucceedsAt(server, cancelled, attempt + 1, k)
      {}
    }
  }

  /** At most three attempts run; the download succeeds exactly when one of them ends
      properly before a cancellation, and then what it returns is the file. */
  lemma DownloadExactly(file: Bytes, server: Server, cancelled: nat -> bool)
    requires HonestServer(file, server)
    ensures var r := TryFrom(server, cancelled, 1, []);
            && 1 <= r.1 <= 3
            && (r.0.Some? <==> exists k :: SucceedsAt(server, cancelled, 1, k))
            && (r.0.Some? ==> r.0.value == file)
  {
    TryFromExactly(server, cancelled, 1);
    var r := TryFrom(server, cancelled, 1, []);
    BufferIsPrefix(file, server, r.1);
    if k: nat :| SucceedsAt(server, cancelled, 1, k) {
      assert 1 <= k <= ATTEMPTS;
    }
  }

  // --------------------------------------------------------------------- that it resumes

  /** What a body brought: its reads one after another, and the last one. */
  lemma {:induction false} ReceivedInOrder(body: Body)
    ensures Received(body) == if body.chunks == [] then body.last
                              else body.chunks[0] + Received(Body(body.chunks[1..], body.last, body.complete))
  {
    if body.chunks != [] {
      ConcatFirst(body.chunks);
      assert body.chunks[0] + (Concat(body.chunks[1..]) + body.last) == (body.chunks[0] + Concat(body.chunks[1..])) + body.last;
    }
  }

  lemma {:induction false} ConcatFirst(chunks: seq<Bytes>)
    requires chunks != []
    ensures Concat(chunks) == chunks[0] + Concat(chunks[1..])
  {
    var n := |chunks| - 1;
    if n > 0 {
      ConcatFirst(chunks[..n]);
      assert chunks[1..][..n - 1] == chunks[..n][1..] && chunks[1..][n - 1] == chunks[n];
    } else {
      assert chunks[..n] == [] && chunks[1..] == [];
    }
  }

  /** The bytes an answer brought. */
  function Brought(a: Answer): nat {
    if a.Refused? then 0 else |Received(a.body)|
  }

  /** Where the next attempt asks to continue: a refusal keeps what is there, a whole answer
      starts over with what it brought, complete or cut, and a partial one adds to it. */
  lemma NextOffset(server: Server, attempt: nat)
    requires 1 <= attempt
    ensures |BufferAt(server, 1)| == 0
    ensures |BufferAt(server, attempt + 1)| ==
            match AnswerAt(server, attempt)
            case Refused => |BufferAt(server, attempt)|
            case Whole(_, body) => |Received(body)|
            case Partial(_, body) => |BufferAt(server, attempt)| + |Received(body)|
  {}

  /** What attempts brought, from one up to but not including another. */
  function TotalBrought(server: Server, from: nat, upTo: nat): nat
    requires 1 <= from <= upTo
  {
    if from == upTo then 0 else TotalBrought(server, from, upTo - 1) + Brought(AnswerAt(server, upTo - 1))
  }

  /** An attempt continues at everything received since the latest whole answer, or since
      the first attempt if there was none. */
  lemma {:induction false} OffsetIsTotal(server: Server, from: nat, attempt: nat)
    requires 1 <= from <= attempt && (from == 1 || (from < attempt && AnswerAt(server, from).Whole?))
    requires forall j :: from < j < attempt ==> !AnswerAt(server, j).Whole?
    ensures |BufferAt(server, attempt)| == TotalBrought(server, from, attempt)
  {
    if attempt > from {
      NextOffset(server, attempt - 1);
      if attempt - 1 > from || from == 1 {
        if attempt - 1 == from && AnswerAt(server, from).Whole? {
          assert TotalBrought(server, from, from) == 0;
        } else {
          OffsetIsTotal(server, from, attempt - 1);
        }
      } else {
        assert TotalBrought(server, from, from) == 0;
      }
    }
  }

  /** After attempts that were cut short or refused, one that brings just the rest of the
      file completes the download. */
  lemma RestCompletes(file: Bytes, server: Server, cancelled: nat -> bool, k: nat)
    requires HonestServer(file, server) && 1 <= k <= 3
    requires forall j :: 1 <= j < k ==> !Succeeds(AnswerAt(server, j)) && !cancelled(j)
    requires AnswerAt(server, k).Partial? && AnswerAt(server, k).body.complete
    ensures Brought(AnswerAt(server, k)) == |file| - |BufferAt(server, k)|
    ensures TryFrom(server, cancelled, 1, []) == (Some(file), k)
  {
    BufferIsPrefix(file, server, k);
    TryFromExactly(server, cancelled, 1);
    var r := TryFrom(server, cancelled, 1, []);
    assert SucceedsAt(server, cancelled, 1, k);
    assert r.1 == k by {
      assert SucceedsAt(server, cancelled, 1, r.1);
    }
  }

  // --------------------------------------------------------------------------- the transfer

  datatype Report = Report(received: int, total: int)

  /** Counts the bytes of one body as they are read. */
  class ProgressReader {
    const start: int
    const total: int
    var received: int
    var lastEmit: int
    var reports: seq<Report>

    ghost predicate Reading()
      reads this
    {
      Apart(start, reports, total) && lastEmit == LastReported(start, reports) && lastEmit <= received < lastEmit + REPORT_STEP
    }

    constructor (have: int, size: int)
      ensures Reading() && start == received == have && total == size && reports == []
    {
      start, total, received, lastEmit, reports := have, size, have, have, [];
    }

    /** After each read: a report when a step has been received since the last one, and
        always at the end of the body. */
    method Read(n: nat, atEnd: bool)
      requires Reading()
      modifies this
      ensures received == old(received) + n && Spaced(start, reports, received, total, atEnd)
      ensures !atEnd ==> Reading()
    {
      received := received + n;
      SpacedAtEnd(start, reports, received, total);
      if received - lastEmit >= REPORT_STEP || atEnd {
        if !atEnd {
          ApartMore(start, reports, received, total);
        }
        lastEmit := received;
        reports := reports + [Report(received, total)];
      }
    }
  }

  class Transfer {
    var buf: Bytes
    var total: int
    var reports: seq<Report>

    constructor (expected: int)
      ensures buf == [] && total == expected && reports == []
    {
      buf, total, reports := [], expected, [];
    }

    /** Copies a body to the buffer, reporting its progress. */
    method CopyBody(body: Body) returns (ghost made: seq<Report>)
      modifies this`buf, this`reports
      ensures buf == old(buf) + Received(body)
      ensures reports == old(reports) + made && Spaced(|old(buf)|, made, |buf|, total, body.complete)
    {
      var reader := new ProgressReader(|buf|, total);
      var i := 0;
      while i < |body.chunks|
        invariant 0 <= i <= |body.chunks| && reports == old(reports)
        invariant buf == old(buf) + Concat(body.chunks[..i]) && reader.received == |buf|
        invariant reader.Reading()
      {
        assert body.chunks[..i + 1][..i] == body.chunks[..i];
        buf := buf + body.chunks[i];
        reader.Read(|body.chunks[i]|, false);
        i := i + 1;
      }
      assert body.chunks[..i] == body.chunks;
      buf := buf + body.last;
      reader.Read(|body.last|, body.complete);
      made := reader.reports;
      reports := reports + reader.reports;
    }

    /** One request: from the start, or continuing where the buffer ends. */
    method DownloadInto(a: Answer) returns (ok: bool)
      modifies this
      ensures buf == match a
                     case Refused => old(buf)
                     case Whole(_, body) => Received(body)
                     case Partial(_, body) => old(buf) + Received(body)
      ensures ok <==> !a.Refused? && a.body.complete
      ensures total == match a
                       case Refused => old(total)
                       case Whole(length, _) => if length > 0 then length else old(total)
                       case Partial(size, _) => if size > 0 then size else old(total)
      ensures old(reports) <= reports
      ensures ok ==> reports != [] && reports[|reports| - 1] == Report(|buf|, total)
    {
      match a {
        case Refused =>
          return false;
        case Whole(length, body) =>
          buf := [];
          if length > 0 {
            total := length;
          }
          ghost var made := CopyBody(body);
          return body.complete;
        case Partial(size, body) =>
          if size > 0 {
            total := size;
          }
          ghost var made := CopyBody(body);
          return body.complete;
      }
    }

    /** Up to three attempts, continuing from what was received. */
    method Run(server: Server, cancelled: nat -> bool) returns (data: Option<Bytes>, attempt: nat)
      requires buf == []
      modifies this
      ensures (data, attempt) == TryFrom(server, cancelled, 1, [])
      ensures forall file: Bytes :: HonestServer(file, server) ==> total == old(total) || total == |file|
    {
      attempt := 1;
      while true
        invariant 1 <= attempt <= ATTEMPTS && buf == BufferAt(server, attempt)
        invariant TryFrom(server, cancelled, 1, []) == TryFrom(server, cancelled, attempt, buf)
        invariant forall file: Bytes :: HonestServer(file, server) ==> total == old(total) || total == |file|
        decreases ATTEMPTS - attempt
      {
        var a := server(attempt, |buf|);
        forall file: Bytes | HonestServer(file, server) ensures Honest(file, |buf|, a) {
          BufferIsPrefix(file, server, attempt);
        }
        var ok := DownloadInto(a);
        if ok {
          return Some(buf), attempt;
        }
        if cancelled(attempt) || attempt == ATTEMPTS {
          return None, attempt;
        }
        attempt := attempt + 1;
      }
    }
  }

  function LastReported(start: int, reports: seq<Report>): int {
    if reports == [] then start else reports[|reports| - 1].received
  }

  /** Each report is at least a step beyond the one before. */
  predicate Apart(start: int, reports: seq<Report>, total: int) {
    reports == [] ||
    (var before, last := reports[..|reports| - 1], reports[|reports| - 1];
     Apart(start, before, total) && last.total == total && last.received >= LastReported(start, before) + REPORT_STEP)
  }

  lemma ApartMore(start: int, reports: seq<Report>, received: int, total: int)
    requires Apart(start, reports, total) && received >= LastReported(start, reports) + REPORT_STEP
    ensures Apart(start, reports + [Report(received, total)], total)
  {
    assert (reports + [Report(received, total)])[..|reports|] == reports;
  }

  lemma SpacedAtEnd(start: int, reports: seq<Report>, received: int, total: int)
    requires Apart(start, reports, total) && received >= LastReported(start, reports)
    ensures Spaced(start, reports + [Report(received, total)], received, total, true)
    ensures received < LastReported(start, reports) + REPORT_STEP ==> Spaced(start, reports, received, total, false)
  {
    assert (reports + [Report(received, total)])[..|reports|] == reports;
  }

  /** The reports of one body: each is a step beyond the one before, but for a last one at
      the end; none is ahead of what was received, less than a step is left unreported, and
      nothing once the body is complete. */
  predicate Spaced(start: int, reports: seq<Report>, received: int, total: int, complete: bool) {
    && (reports != [] ==>
          Apart(start, reports[..|reports| - 1], total) && reports[|reports| - 1].total == total
          && LastReported(start, reports[..|reports| - 1]) <= reports[|reports| - 1].received)
    && 0 <= received - LastReported(start, reports) < REPORT_STEP
    && (complete ==> reports != [] && LastReported(start, reports) == received)
  }
}
