/** Resumable streaming download: attempts append to a partial file beside the destination, a stalled or
    short attempt keeps it for the next one, every other failure removes it, success renames it over the
    destination. */
module ResumableDownload {
  import opened Text
  import opened HttpHeaders

  type Bytes = seq<bv8>

  /** The two paths an attempt touches; None is a missing file. */
  datatype Files = Files(part: Option<Bytes>, destination: Option<Bytes>)

  /** How writing one chunk ends: all of it reaches the file, or the write raises after `onDisk` bytes. */
  datatype Write = Written | Failed(onDisk: nat)

  /** One turn of the chunk iterator: a chunk read at a clock time, or the iterator raising. */
  datatype Arrival = Chunk(at: real, data: Bytes, write: Write) | Broken

  /** Which of the remaining file operations raise; closing the partial file flushes it, and like a write may leave
      less. */
  datatype Faults = Faults(mkdir: bool, freshUnlink: bool, open: bool, close: Write, replace: bool, cleanup: bool)

  const NO_FAULTS := Faults(false, false, false, Written, false, false)

  datatype Request = Request(
    status: int,
    headers: Headers,
    maxBytes: Option<int>,
    allowed: seq<string>,
    timeout: Option<real>,
    startedAt: real,
    arrivals: seq<Arrival>,
    resumeFrom: nat,
    faults: Faults)

  datatype ErrorCode =
    | StatusInvalid | ContentRangeInvalid | ContentTypeInvalid | SizeExceeded
    | ResumeInvalid | Stalled | EmptyBody | Incomplete | OtherError

  datatype Outcome = Installed(written: nat) | Raised(code: ErrorCode)

  predicate Resumable(code: ErrorCode) {
    code in {Stalled, Incomplete}
  }

  predicate OverLimit(size: nat, maxBytes: Option<int>) {
    maxBytes.Some? && maxBytes.value > 0 && size > maxBytes.value
  }

  predicate TooLate(at: real, last: real, timeout: Option<real>) {
    timeout.Some? && timeout.value > 0.0 && at - last > timeout.value
  }

  // ----- one attempt, as a function of the files and the request -----

  function HeaderError(req: Request): Option<ErrorCode> {
    ResponseError(req.status, req.headers, req.resumeFrom, req.allowed, req.maxBytes)
  }

  function ResponseError(status: int, headers: Headers, resumeFrom: nat, allowed: seq<string>, maxBytes: Option<int>)
    : Option<ErrorCode>
  {
    var contentType := Header(headers, "Content-Type");
    var declared := DeclaredSize(headers);
    if status !in {200, 206} then Some(StatusInvalid)
    else if status == 206 && ContentRangeTotal(headers).None? then Some(ContentRangeInvalid)
    else if resumeFrom > 0 && (status != 206 || ContentRangeStart(headers) != Some(resumeFrom)) then
      Some(ContentRangeInvalid)
    else if contentType.Some? && contentType.value != "" && !IsAllowedContentType(contentType.value, allowed) then
      Some(ContentTypeInvalid)
    else if declared.Some? && OverLimit(declared.value, maxBytes) then Some(SizeExceeded)
    else None
  }

  /** How reading the chunks ends, with what the partial file then holds. */
  datatype StreamEnd = Finished(content: Bytes) | Halted(content: Bytes, code: ErrorCode)

  function Stream(content: Bytes, last: real, req: Request, arrivals: seq<Arrival>): StreamEnd
    decreases arrivals
  {
    if arrivals == [] then Finished(content)
    else
      match arrivals[0]
      case Broken => Halted(content, OtherError)
      case Chunk(at, data, write) =>
        if TooLate(at, last, req.timeout) then Halted(content, Stalled)
        else if data == [] then Stream(content, last, req, arrivals[1..])
        else if OverLimit(|content| + |data|, req.maxBytes) then Halted(content, SizeExceeded)
        else if write.Failed? then Halted(Flushed(content + data, write.onDisk), OtherError)
        else Stream(content + data, at, req, arrivals[1..])
  }

  function Flushed(content: Bytes, onDisk: nat): (r: Bytes)
    ensures r <= content && |r| == if onDisk < |content| then onDisk else |content|
  {
    if onDisk <= |content| then content[..onDisk] else content
  }

  /** Leaving the partial file, normally or by an exception, closes it; an exception from closing takes over. */
  function Closed(end: StreamEnd, close: Write): StreamEnd {
    match close
    case Written => end
    case Failed(onDisk) => Halted(Flushed(end.content, onDisk), OtherError)
  }

  /** What the partial file holds when the stream opens, or why it does not open. */
  function Opened(files: Files, req: Request): (Option<Bytes>, Option<ErrorCode>) {
    if req.resumeFrom > 0 then
      if files.part.None? || |files.part.value| != req.resumeFrom then (files.part, Some(ResumeInvalid))
      else (files.part, if req.faults.open then Some(OtherError) else None)
    else if req.faults.freshUnlink then (files.part, Some(OtherError))
    else if req.faults.open then (None, Some(OtherError))
    else (Some([]), None)
  }

  /** The files and the exception when the guarded block ends, before its handler runs. */
  function Guarded(files: Files, req: Request, declared: Option<nat>): (Files, Outcome) {
    var (part, error) := Opened(files, req);
    if error.Some? then (files.(part := part), Raised(error.value))
    else if part.None? then (files, Raised(OtherError))
    else
      var end := Closed(Stream(part.value, req.startedAt, req, req.arrivals), req.faults.close);
      var left := files.(part := Some(end.content));
      if end.Halted? then (left, Raised(end.code))
      else if |end.content| <= req.resumeFrom then (left, Raised(EmptyBody))
      else if declared.Some? && |end.content| != declared.value then (left, Raised(Incomplete))
      else if req.faults.replace then (left, Raised(OtherError))
      else (Files(None, Some(end.content)), Installed(|end.content|))
  }

  /** One attempt, given what its headers say: an error, and the declared size. */
  function AttemptWith(files: Files, req: Request, error: Option<ErrorCode>, declared: Option<nat>): (Files, Outcome) {
    if error.Some? then (files, Raised(error.value))
    else if req.faults.mkdir then (files, Raised(OtherError))
    else
      var (left, outcome) := Guarded(files, req, declared);
      if outcome.Raised? && !Resumable(outcome.code) && !req.faults.cleanup then (left.(part := None), outcome)
      else (left, outcome)
  }

  function Attempt(files: Files, req: Request): (Files, Outcome) {
    AttemptWith(files, req, HeaderError(req), DeclaredSize(req.headers))
  }

  // ----- the download as the worker runs it -----

  class DownloadTarget {
    var part: Option<Bytes>
    var destination: Option<Bytes>

    function State(): Files
      reads this
    {
      Files(part, destination)
    }

    constructor (part: Option<Bytes>, destination: Option<Bytes>)
      ensures State() == Files(part, destination)
    {
      this.part, this.destination := part, destination;
    }

    /** One download attempt; every path through it is the specified one. */
    method WriteStream(req: Request) returns (outcome: Outcome)
      modifies this
      ensures (State(), outcome) == Attempt(old(State()), req)
    {
      var error := HeaderError(req);
      if error.Some? {
        return Raised(error.value);
      }
      if req.faults.mkdir {
        return Raised(OtherError);
      }
      outcome := WriteGuarded(req);
      if outcome.Raised? && !Resumable(outcome.code) && !req.faults.cleanup {
        part := None;
      }
    }

    method WriteGuarded(req: Request) returns (outcome: Outcome)
      modifies this
      ensures (State(), outcome) == Guarded(old(State()), req, DeclaredSize(req.headers))
    {
      if req.resumeFrom > 0 {
        if part.None? || |part.value| != req.resumeFrom {
          return Raised(ResumeInvalid);
        }
      } else {
        if req.faults.freshUnlink {
          return Raised(OtherError);
        }
        part := None;
      }
      if req.faults.open {
        return Raised(OtherError);
      }
      if req.resumeFrom == 0 {
        part := Some([]);
      }
      var written, halted := CopyChunks(req);
      if req.faults.close.Failed? {
        part := Some(Flushed(part.value, req.faults.close.onDisk));
        return Raised(OtherError);
      }
      if halted.Some? {
        return Raised(halted.value);
      }
      if written <= req.resumeFrom {
        return Raised(EmptyBody);
      }
      var declared := DeclaredSize(req.headers);
      if declared.Some? && written != declared.value {
        return Raised(Incomplete);
      }
      if req.faults.replace {
        return Raised(OtherError);
      }
      part, destination := None, part;
      outcome := Installed(written);
    }

    /** The chunk loop, with its byte counter and the time of the last progress. */
    method CopyChunks(req: Request) returns (written: nat, halted: Option<ErrorCode>)
      requires part.Some? && |part.value| == req.resumeFrom
      modifies this
      ensures part.Some? && destination == old(destination)
      ensures Stream(old(part.value), req.startedAt, req, req.arrivals)
           == (if halted.None? then Finished(part.value) else Halted(part.value, halted.value))
      ensures halted.None? ==> written == |part.value|
    {
      written, halted := req.resumeFrom, None;
      var last := req.startedAt;
      ghost var end := Stream(part.value, last, req, req.arrivals);
      for i := 0 to |req.arrivals|
        invariant part.Some? && destination == old(destination)
        invariant written == |part.value| && halted.None?
        invariant Stream(part.value, last, req, req.arrivals[i..]) == end
      {
        assert req.arrivals[i..][1..] == req.arrivals[i + 1..];
        match req.arrivals[i]
        case Broken =>
          return written, Some(OtherError);
        case Chunk(at, data, write) =>
          if TooLate(at, last, req.timeout) {
            return written, Some(Stalled);
          }
          if data == [] {
            continue;
          }
          if OverLimit(written + |data|, req.maxBytes) {
            return written + |data|, Some(SizeExceeded);
          }
          match write
          case Failed(onDisk) =>
            part := Some(Flushed(part.value + data, onDisk));
            return written + |data|, Some(OtherError);
          case Written =>
            written := written + |data|;
            part := Some(part.value + data);
            last := at;
      }
    }
  }

  // ----- what one attempt achieves -----

  function DataOf(a: Arrival): Bytes {
    if a.Chunk? then a.data else []
  }

  /** All the bytes the iterator yields. */
  function Payload(arrivals: seq<Arrival>): Bytes {
    if arrivals == [] then [] else DataOf(arrivals[0]) + Payload(arrivals[1..])
  }

  predicate Within(size: nat, maxBytes: Option<int>) {
    maxBytes.Some? && maxBytes.value > 0 ==> size <= maxBytes.value
  }

  predicate InTime(at: real, last: real, timeout: Option<real>) {
    timeout.Some? && timeout.value > 0.0 ==> at <= last + timeout.value
  }

  /** When the last byte before arrival i came. */
  function LastProgress(arrivals: seq<Arrival>, i: nat, start: real): real
    requires i <= |arrivals|
  {
    if i == 0 then start
    else if arrivals[i - 1].Chunk? && arrivals[i - 1].data != [] then arrivals[i - 1].at
    else LastProgress(arrivals, i - 1, start)
  }

  /** Every chunk comes within the timeout of the last progress before it. */
  predicate Timely(arrivals: seq<Arrival>, start: real, timeout: Option<real>) {
    forall i :: 0 <= i < |arrivals| && arrivals[i].Chunk? ==>
      InTime(arrivals[i].at, LastProgress(arrivals, i, start), timeout)
  }

  /** The iterator never raises and every non-empty chunk is written. */
  predicate Intact(arrivals: seq<Arrival>) {
    forall i :: 0 <= i < |arrivals| ==> arrivals[i].Chunk? && (arrivals[i].data != [] ==> arrivals[i].write.Written?)
  }

  function Progressed(a: Arrival, last: real): real {
    if a.Chunk? && a.data != [] then a.at else last
  }

  lemma {:induction false} LastProgressShifts(arrivals: seq<Arrival>, i: nat, start: real)
    requires i < |arrivals|
    ensures LastProgress(arrivals, i + 1, start) == LastProgress(arrivals[1..], i, Progressed(arrivals[0], start))
  {
    if i > 0 {
      LastProgressShifts(arrivals, i - 1, start);
      assert arrivals[1..][i - 1] == arrivals[i];
    }
  }

  lemma TimelyShifts(arrivals: seq<Arrival>, start: real, timeout: Option<real>)
    requires arrivals != []
    ensures Timely(arrivals, start, timeout)
       <==> (arrivals[0].Chunk? ==> InTime(arrivals[0].at, start, timeout))
            && Timely(arrivals[1..], Progressed(arrivals[0], start), timeout)
  {
    forall i | 0 <= i < |arrivals[1..]|
      ensures LastProgress(arrivals, i + 1, start) == LastProgress(arrivals[1..], i, Progressed(arrivals[0], start))
      ensures arrivals[1..][i] == arrivals[i + 1]
    {
      LastProgressShifts(arrivals, i, start);
    }
    if Timely(arrivals, start, timeout) {
      assert LastProgress(arrivals, 0, start) == start;
      forall i | 0 <= i < |arrivals[1..]| && arrivals[1..][i].Chunk?
        ensures InTime(arrivals[1..][i].at, LastProgress(arrivals[1..], i, Progressed(arrivals[0], start)), timeout)
      {
        assert arrivals[i + 1].Chunk?;
      }
    }
    if (arrivals[0].Chunk? ==> InTime(arrivals[0].at, start, timeout))
       && Timely(arrivals[1..], Progressed(arrivals[0], start), timeout) {
      forall i | 0 <= i < |arrivals| && arrivals[i].Chunk?
        ensures InTime(arrivals[i].at, LastProgress(arrivals, i, start), timeout)
      {
        if i > 0 {
          assert arrivals[1..][i - 1] == arrivals[i];
        }
      }
    }
  }

  lemma IntactShifts(arrivals: seq<Arrival>)
    requires arrivals != []
    ensures Intact(arrivals)
       <==> arrivals[0].Chunk? && (arrivals[0].data != [] ==> arrivals[0].write.Written?) && Intact(arrivals[1..])
  {
    assert arrivals == [arrivals[0]] + arrivals[1..];
  }

  /** The stream finishes exactly when nothing raises, every chunk is in time and the whole stays within the
      limit; then the partial file holds what was kept and all that came. */
  lemma {:induction false} StreamFinishesIff(content: Bytes, last: real, req: Request, arrivals: seq<Arrival>)
    ensures var all := content + Payload(arrivals);
      var end := Stream(content, last, req, arrivals);
      && (end.Finished?
          <==> Intact(arrivals) && Timely(arrivals, last, req.timeout)
               && (Payload(arrivals) == [] || Within(|all|, req.maxBytes)))
      && (end.Finished? ==> end.content == all)
    decreases arrivals
  {
    if arrivals != [] {
      IntactShifts(arrivals);
      TimelyShifts(arrivals, last, req.timeout);
      var a := arrivals[0];
      if a.Chunk? {
        StreamFinishesIff(content + a.data, Progressed(a, last), req, arrivals[1..]);
        assert content + Payload(arrivals) == content + a.data + Payload(arrivals[1..]);
        if a.data == [] {
          assert content + a.data == content;
        }
      }
    }
  }

  /** However the stream ends, the partial file is a prefix of what was kept and all that came; a finished,
      stalled or over-long stream has not lost what was kept. */
  lemma {:induction false} StreamKeepsPrefix(content: Bytes, last: real, req: Request, arrivals: seq<Arrival>)
    ensures var end := Stream(content, last, req, arrivals);
      && end.content <= content + Payload(arrivals)
      && (end.Finished? || end.code in {Stalled, SizeExceeded} ==> content <= end.content)
      && (end.Halted? ==> end.code in {Stalled, SizeExceeded, OtherError})
    decreases arrivals
  {
    if arrivals != [] && arrivals[0].Chunk? {
      var a := arrivals[0];
      assert content + Payload(arrivals) == content + a.data + Payload(arrivals[1..]);
      if a.data == [] {
        StreamKeepsPrefix(content, last, req, arrivals[1..]);
        assert content + a.data == content;
      } else {
        StreamKeepsPrefix(content + a.data, a.at, req, arrivals[1..]);
      }
    }
  }

  function Kept(files: Files, req: Request): Bytes {
    if req.resumeFrom > 0 && files.part.Some? then files.part.value else []
  }

  /** Everything a successful attempt needs: accepted headers, working file operations, a partial file of the
      announced length, a stream that finishes, and a non-empty body that reaches the declared size. */
  predicate CanInstall(files: Files, req: Request) {
    CanInstallWith(files, req, HeaderError(req), DeclaredSize(req.headers))
  }

  predicate CanInstallWith(files: Files, req: Request, error: Option<ErrorCode>, declared: Option<nat>) {
    var total := req.resumeFrom + |Payload(req.arrivals)|;
    && error.None?
    && !req.faults.mkdir && !req.faults.open && req.faults.close.Written? && !req.faults.replace
    && (req.resumeFrom == 0 ==> !req.faults.freshUnlink)
    && (req.resumeFrom > 0 ==> files.part.Some? && |files.part.value| == req.resumeFrom)
    && Intact(req.arrivals) && Timely(req.arrivals, req.startedAt, req.timeout)
    && Payload(req.arrivals) != []
    && Within(total, req.maxBytes)
    && (declared.Some? ==> total == declared.value)
  }

  lemma InstallsWith(files: Files, req: Request, error: Option<ErrorCode>, declared: Option<nat>)
    ensures var (after, outcome) := AttemptWith(files, req, error, declared);
      var whole := Kept(files, req) + Payload(req.arrivals);
      && (outcome.Installed? <==> CanInstallWith(files, req, error, declared))
      && (outcome.Installed? ==> after == Files(None, Some(whole)) && outcome.written == |whole|)
      && (outcome.Raised? ==> after.destination == files.destination)
  {
    StreamFinishesIff(Kept(files, req), req.startedAt, req, req.arrivals);
  }

  /** An attempt installs exactly when it can; it then installs the kept bytes and the whole body, and otherwise
      the destination is untouched. */
  lemma InstallsIff(files: Files, req: Request)
    ensures var (after, outcome) := Attempt(files, req);
      var whole := Kept(files, req) + Payload(req.arrivals);
      && (outcome.Installed? <==> CanInstall(files, req))
      && (outcome.Installed? ==> after == Files(None, Some(whole)) && outcome.written == |whole|)
      && (outcome.Raised? ==> after.destination == files.destination)
  {
    InstallsWith(files, req, HeaderError(req), DeclaredSize(req.headers));
  }

  // ----- which headers are refused, and for what -----

  /** Success or partial content; a range with a total when partial; and when resuming, one that starts where the
      partial file ends. */
  predicate StatusFits(req: Request) {
    req.status == 200 || req.status == 206
  }

  predicate RangeFits(req: Request) {
    && (req.status == 206 ==> ContentRangeTotal(req.headers).Some?)
    && (req.resumeFrom > 0 ==> req.status == 206 && ContentRangeStart(req.headers) == Some(req.resumeFrom))
  }

  /** The response names no type, or one that an entry of the list lets through. */
  ghost predicate TypeFits(req: Request, head: string) {
    Header(req.headers, "Content-Type").None? || Header(req.headers, "Content-Type").value == ""
    || exists entry :: entry in req.allowed && Lets(entry, Lower(Trim(head, IsPySpace)))
  }

  predicate SizeFits(req: Request) {
    req.maxBytes.Some? && req.maxBytes.value > 0 ==>
      DeclaredSize(req.headers).None? || DeclaredSize(req.headers).value <= req.maxBytes.value
  }

  /** The content type, if there is one, is a media type and then nothing or parameters. */
  ghost predicate TypeIs(req: Request, head: string, rest: string) {
    && ';' !in head && (rest == "" || rest[0] == ';')
    && (Header(req.headers, "Content-Type").Some? ==> Header(req.headers, "Content-Type").value == head + rest)
  }

  /** A response is refused for its status, then its range, then its type, then its size: each exactly when the ones
      before are in order and it is not. */
  lemma HeaderErrorIff(req: Request, head: string, rest: string)
    requires TypeIs(req, head, rest)
    ensures HeaderError(req) ==
      if !StatusFits(req) then Some(StatusInvalid)
      else if !RangeFits(req) then Some(ContentRangeInvalid)
      else if !TypeFits(req, head) then Some(ContentTypeInvalid)
      else if !SizeFits(req) then Some(SizeExceeded)
      else None
  {
    ContentTypeIsAllowedIff(head, rest, req.allowed);
  }

  /** Whatever is installed had an acceptable status, range, type and size. */
  lemma InstalledHeadersFit(files: Files, req: Request, head: string, rest: string)
    requires TypeIs(req, head, rest) && Attempt(files, req).1.Installed?
    ensures StatusFits(req) && RangeFits(req) && TypeFits(req, head) && SizeFits(req)
  {
    HeaderErrorIff(req, head, rest);
  }

  /** A web page sent in the place of a video is refused, and nothing is touched. */
  lemma HtmlIsNotInstalled(files: Files, req: Request, rest: string)
    requires req.status == 200 && req.resumeFrom == 0 && req.allowed == VIDEO_CONTENT_TYPES
    requires rest == "" || rest[0] == ';'
    requires Header(req.headers, "Content-Type") == Some("text/html" + rest)
    ensures Attempt(files, req) == (files, Raised(ContentTypeInvalid))
  {
    HtmlIsRefused(rest);
    var html := "text/html";
    assert html + rest != "" by {
      assert (html + rest)[0] == 't';
    }
    TypeIsRefused(req, html + rest);
    RefusedAttempt(files, req, HeaderError(req), DeclaredSize(req.headers));
  }

  lemma TypeIsRefused(req: Request, contentType: string)
    requires req.status == 200 && req.resumeFrom == 0 && contentType != ""
    requires Header(req.headers, "Content-Type") == Some(contentType) && !IsAllowedContentType(contentType, req.allowed)
    ensures HeaderError(req) == Some(ContentTypeInvalid)
  {
  }

  lemma RefusedAttempt(files: Files, req: Request, error: Option<ErrorCode>, declared: Option<nat>)
    requires error.Some?
    ensures AttemptWith(files, req, error, declared) == (files, Raised(error.value))
  {
  }

  /** Headers and directory are in order, so the attempt reaches the partial file. */
  predicate Begun(req: Request, error: Option<ErrorCode>) {
    error.None? && !req.faults.mkdir
  }

  lemma KeepRuleWith(files: Files, req: Request, error: Option<ErrorCode>, declared: Option<nat>)
    requires AttemptWith(files, req, error, declared).1.Raised?
    requires error.Some? ==> !Resumable(error.value)
    ensures var (after, outcome) := AttemptWith(files, req, error, declared);
      && (!Begun(req, error) ==> after == files)
      && (Begun(req, error) && !req.faults.cleanup ==> (after.part.Some? <==> Resumable(outcome.code)))
      && (Resumable(outcome.code) ==>
            && after.part.Some?
            && Kept(files, req) <= after.part.value <= Kept(files, req) + Payload(req.arrivals)
            && req.resumeFrom <= |after.part.value|)
  {
    StreamKeepsPrefix(Kept(files, req), req.startedAt, req, req.arrivals);
  }

  /** The keep-or-delete rule: a failed attempt that never began leaves the partial file alone; once begun, and if
      the clean-up itself works, the partial file survives exactly a stall or a size mismatch, and then it extends
      what was kept with bytes of this body. */
  lemma KeepRule(files: Files, req: Request)
    ensures var (after, outcome) := Attempt(files, req);
      var begun := Begun(req, HeaderError(req));
      outcome.Raised? ==>
        && (!begun ==> after == files)
        && (begun && !req.faults.cleanup ==> (after.part.Some? <==> Resumable(outcome.code)))
        && (Resumable(outcome.code) ==>
              && after.part.Some?
              && Kept(files, req) <= after.part.value <= Kept(files, req) + Payload(req.arrivals)
              && req.resumeFrom <= |after.part.value|)
  {
    if Attempt(files, req).1.Raised? {
      KeepRuleWith(files, req, HeaderError(req), DeclaredSize(req.headers));
    }
  }

  /** A stall keeps the partial file exactly when closing it works: a close that raises takes the stall's place, and its
      handler removes the file. */
  lemma StallIsKeptIff(files: Files, req: Request)
    requires HeaderError(req).None? && !req.faults.mkdir && !req.faults.cleanup
    requires var (part, error) := Opened(files, req);
      && error.None? && part.Some?
      && var end := Stream(part.value, req.startedAt, req, req.arrivals); end.Halted? && end.code.Stalled?
    ensures Attempt(files, req).0.part.Some? <==> req.faults.close.Written?
    ensures Attempt(files, req).1 == Raised(if req.faults.close.Written? then Stalled else OtherError)
  {
    StallIsKeptWith(files, req, HeaderError(req), DeclaredSize(req.headers));
  }

  lemma StallIsKeptWith(files: Files, req: Request, error: Option<ErrorCode>, declared: Option<nat>)
    requires error.None? && !req.faults.mkdir && !req.faults.cleanup
    requires var (part, failure) := Opened(files, req);
      && failure.None? && part.Some?
      && var end := Stream(part.value, req.startedAt, req, req.arrivals); end.Halted? && end.code.Stalled?
    ensures var (after, outcome) := AttemptWith(files, req, error, declared);
      && (after.part.Some? <==> req.faults.close.Written?)
      && outcome == Raised(if req.faults.close.Written? then Stalled else OtherError)
  {
  }

  // ----- any sequence of attempts -----

  function States(files: Files, reqs: seq<Request>): (s: seq<Files>)
    ensures |s| == |reqs| + 1 && s[0] == files
    ensures forall i :: 0 <= i < |reqs| ==> s[i + 1] == Attempt(s[i], reqs[i]).0
    decreases reqs
  {
    if reqs == [] then [files] else [files] + States(Attempt(files, reqs[0]).0, reqs[1..])
  }

  /** The server holds fixed bytes and sends them from the offset asked for, perhaps not to the end. */
  predicate Honest(req: Request, served: Bytes) {
    req.resumeFrom <= |served| ==> Payload(req.arrivals) <= served[req.resumeFrom..]
  }

  predicate DeclaresTotal(req: Request, served: Bytes) {
    DeclaredSize(req.headers) == Some(|served|)
  }

  /** The response is refused for its headers, or comes from an honest server that declares its total. */
  predicate Faithful(req: Request, served: Bytes) {
    HeaderError(req).Some? || (Honest(req, served) && DeclaresTotal(req, served))
  }

  /** The partial file holds a beginning of the served bytes, if anything. */
  predicate PartIsPrefix(files: Files, served: Bytes) {
    files.part.Some? ==> files.part.value <= served
  }

  lemma HonestExtends(kept: Bytes, body: Bytes, served: Bytes)
    requires kept <= served && body <= served[|kept|..]
    ensures kept + body <= served
  {
    assert served == kept + served[|kept|..];
  }

  /** An honest attempt keeps the partial file a prefix of the served bytes, whatever fails and whatever offset the
      caller asks for. */
  lemma AttemptKeepsPrefix(files: Files, req: Request, served: Bytes)
    requires PartIsPrefix(files, served) && Honest(req, served)
    ensures PartIsPrefix(Attempt(files, req).0, served)
    ensures Attempt(files, req).1.Installed? ==> Kept(files, req) + Payload(req.arrivals) <= served
  {
    KeepsPrefixWith(files, req, HeaderError(req), DeclaredSize(req.headers), served);
  }

  lemma KeepsPrefixWith(files: Files, req: Request, error: Option<ErrorCode>, declared: Option<nat>, served: Bytes)
    requires PartIsPrefix(files, served) && Honest(req, served)
    ensures PartIsPrefix(AttemptWith(files, req, error, declared).0, served)
    ensures AttemptWith(files, req, error, declared).1.Installed? ==> Kept(files, req) + Payload(req.arrivals) <= served
  {
    var kept := Kept(files, req);
    if |kept| == req.resumeFrom {
      HonestExtends(kept, Payload(req.arrivals), served);
      StreamKeepsPrefix(kept, req.startedAt, req, req.arrivals);
    }
    InstallsWith(files, req, error, declared);
  }

  /** An honest attempt that succeeds against a declared total installs exactly the served bytes. */
  lemma DeclaredInstallIsWhole(files: Files, req: Request, served: Bytes)
    requires PartIsPrefix(files, served) && Honest(req, served)
    requires DeclaresTotal(req, served)
    requires Attempt(files, req).1.Installed?
    ensures Attempt(files, req).0.destination == Some(served)
  {
    AttemptKeepsPrefix(files, req, served);
    InstallsIff(files, req);
    var whole := Kept(files, req) + Payload(req.arrivals);
    assert |whole| == |served|;
    assert whole == served[..|whole|] == served;
  }

  lemma FaithfulAttemptIsSafe(files: Files, req: Request, served: Bytes)
    requires PartIsPrefix(files, served) && Faithful(req, served)
    ensures var (after, outcome) := Attempt(files, req);
      && PartIsPrefix(after, served)
      && (outcome.Raised? ==> after.destination == files.destination)
      && (outcome.Installed? ==> after.destination == Some(served))
  {
    if HeaderError(req).None? {
      AttemptKeepsPrefix(files, req, served);
      InstallsIff(files, req);
      if Attempt(files, req).1.Installed? {
        DeclaredInstallIsWhole(files, req, served);
      }
    }
  }

  /** Over any sequence of attempts on an honest server that declares its total, with any failures: the partial file
      is always absent or a prefix of the served bytes, the destination is always the original or exactly the
      served bytes, and an attempt that succeeds has put exactly the served bytes there. */
  lemma {:induction false} EveryRunIsSafe(files: Files, reqs: seq<Request>, served: Bytes)
    requires PartIsPrefix(files, served)
    requires forall req :: req in reqs ==> Faithful(req, served)
    ensures forall s :: s in States(files, reqs) ==>
      PartIsPrefix(s, served) && (s.destination == files.destination || s.destination == Some(served))
    ensures forall i :: 0 <= i < |reqs| && Attempt(States(files, reqs)[i], reqs[i]).1.Installed? ==>
      States(files, reqs)[i + 1].destination == Some(served)
    decreases reqs
  {
    if reqs != [] {
      var next := Attempt(files, reqs[0]).0;
      FaithfulAttemptIsSafe(files, reqs[0], served);
      EveryRunIsSafe(next, reqs[1..], served);
      var rest := States(next, reqs[1..]);
      assert States(files, reqs) == [files] + rest;
      forall i | 0 <= i < |reqs| && Attempt(States(files, reqs)[i], reqs[i]).1.Installed?
        ensures States(files, reqs)[i + 1].destination == Some(served)
      {
        if i > 0 {
          assert reqs[1..][i - 1] == reqs[i] && States(files, reqs)[i] == rest[i - 1];
        } else {
          assert States(files, reqs)[1] == rest[0];
        }
      }
    }
  }

  // ----- a server that says where it starts -----

  /** The offset a response says its body begins at. */
  function SentFrom(req: Request): Option<nat> {
    if req.status == 206 then ContentRangeStart(req.headers) else Some(0)
  }

  /** The body is what the server holds at the offset the response names. */
  predicate Truthful(req: Request, served: Bytes) {
    var start := SentFrom(req);
    start.Some? && start.value <= |served| && Payload(req.arrivals) <= served[start.value..]
  }

  /** A resumed attempt, or a fresh one whose response begins at the first byte. */
  predicate AskedOrFromStart(req: Request) {
    req.resumeFrom > 0 || SentFrom(req) == Some(0)
  }

  /** The header check is what ties the response to the request: past it, a truthful resumed body begins where the
      partial file ends. */
  lemma TruthfulIsHonest(req: Request, served: Bytes)
    requires HeaderError(req).None? && Truthful(req, served) && AskedOrFromStart(req)
    ensures Honest(req, served)
  {
  }

  /** So every run on a truthful server is safe, whatever offsets its responses name, as long as no fresh attempt is
      answered from the middle. */
  lemma EveryTruthfulRunIsSafe(files: Files, reqs: seq<Request>, served: Bytes)
    requires PartIsPrefix(files, served)
    requires forall req :: req in reqs ==>
      Truthful(req, served) && AskedOrFromStart(req) && (HeaderError(req).None? ==> DeclaresTotal(req, served))
    ensures forall s :: s in States(files, reqs) ==>
      PartIsPrefix(s, served) && (s.destination == files.destination || s.destination == Some(served))
  {
    forall req | req in reqs
      ensures Faithful(req, served)
    {
      if HeaderError(req).None? {
        TruthfulIsHonest(req, served);
      }
    }
    EveryRunIsSafe(files, reqs, served);
  }

  lemma FreshPartIsReceived(req: Request)
    requires req.resumeFrom == 0
    ensures var part := Attempt(Files(None, None), req).0.part; part.Some? ==> part.value <= Payload(req.arrivals)
  {
    var body := Payload(req.arrivals);
    assert body[0..] == body;
    AttemptKeepsPrefix(Files(None, None), req, body);
  }

  /** The exception is real and exact: the check does not look at where a fresh response begins. What such an attempt
      leaves in the partial file is a beginning of whatever a truthful server holds exactly when the response began at
      the first byte. */
  lemma FreshRangeIsSafeIff(req: Request, start: nat, total: nat)
    requires req.resumeFrom == 0 && SentFrom(req) == Some(start) && start + |Payload(req.arrivals)| <= total
    requires Attempt(Files(None, None), req).0.part.Some? && Attempt(Files(None, None), req).0.part.value != []
    ensures (forall served :: |served| == total && Truthful(req, served) ==>
              PartIsPrefix(Attempt(Files(None, None), req).0, served)) <==> start == 0
  {
    FreshPartIsReceived(req);
    var part, body := Attempt(Files(None, None), req).0.part.value, Payload(req.arrivals);
    if start > 0 {
      var served := SomeServedDiffers(part, body, start, total);
      assert Truthful(req, served);
    } else {
      forall served | |served| == total && Truthful(req, served)
        ensures part <= served
      {
        assert served[0..] == served;
      }
    }
  }

  lemma SomeServedDiffers(part: Bytes, body: Bytes, start: nat, total: nat) returns (served: Bytes)
    requires part != [] && start > 0 && start + |body| <= total
    ensures |served| == total && body <= served[start..] && !(part <= served)
  {
    var other: bv8 := if part[0] == 0 then 1 else 0;
    served := seq(start, _ => other) + body + seq(total - start - |body|, _ => 0);
    assert served[start..][..|body|] == body;
    assert served[0] != part[0];
  }

  /** A run that shows it: a truthful server answers a fresh request from byte 1 and a resumed one from byte 1, and the
      file installed is not the one it holds. */
  lemma MisplacedStartIsInstalled(first: Request, second: Request)
    requires first == Request(206, [("Content-Range", RenderContentRange(1, 1, 2))], None, [], None, 0.0,
                              [Chunk(0.0, [2], Written)], 0, NO_FAULTS)
    requires second == first.(resumeFrom := 1)
    ensures Truthful(first, [1, 2]) && Truthful(second, [1, 2])
    ensures Attempt(Files(None, None), first).0 == Files(Some([2]), None)
    ensures Attempt(Files(Some([2]), None), second) == (Files(None, Some([2, 2])), Installed(2))
  {
    ResumeHeadersAccepted(first, 1, 2);
    ResumeHeadersAccepted(second, 1, 2);
    var served: Bytes := [1, 2];
    assert served[1..] == [2];
    OneChunkIsReceived(first, first.arrivals[0]);
    ShortBodyIsKept(first, first.arrivals[0], HeaderError(first), DeclaredSize(first.headers));
    OneChunkResumes([2], second, second.arrivals[0], HeaderError(second), DeclaredSize(second.headers));
    assert [2] + second.arrivals[0].data == [2, 2];
  }

  predicate IsOneChunk(req: Request, chunk: Arrival) {
    && req.arrivals == [chunk] && chunk.Chunk? && chunk.data != [] && chunk.write.Written?
    && req.timeout.None? && req.maxBytes.None? && req.faults == NO_FAULTS
  }

  lemma OneChunkIsReceived(req: Request, chunk: Arrival)
    requires IsOneChunk(req, chunk)
    ensures Payload(req.arrivals) == chunk.data
  {
    assert req.arrivals[1..] == [];
    assert chunk.data + [] == chunk.data;
  }

  lemma ShortBodyIsKept(req: Request, chunk: Arrival, error: Option<ErrorCode>, declared: Option<nat>)
    requires IsOneChunk(req, chunk) && req.resumeFrom == 0 && error.None?
    requires declared.Some? && declared.value != |chunk.data|
    ensures AttemptWith(Files(None, None), req, error, declared) == (Files(Some(chunk.data), None), Raised(Incomplete))
  {
    OneChunkStreams([], req, chunk);
    assert [] + chunk.data == chunk.data;
  }

  lemma OneChunkResumes(part: Bytes, req: Request, chunk: Arrival, error: Option<ErrorCode>, declared: Option<nat>)
    requires IsOneChunk(req, chunk) && req.resumeFrom == |part| > 0 && error.None?
    requires declared == Some(|part| + |chunk.data|)
    ensures AttemptWith(Files(Some(part), None), req, error, declared)
         == (Files(None, Some(part + chunk.data)), Installed(declared.value))
  {
    OneChunkStreams(part, req, chunk);
  }

  lemma OneChunkStreams(content: Bytes, req: Request, chunk: Arrival)
    requires IsOneChunk(req, chunk)
    ensures Stream(content, req.startedAt, req, req.arrivals) == Finished(content + chunk.data)
  {
    assert req.arrivals[1..] == [];
  }

  /** A server that declares nothing can have a truncated body installed as if it were whole. */
  lemma UndeclaredBodyIsTruncated(req: Request)
    requires req == Request(200, [], None, [], None, 0.0, [Chunk(0.0, [1], Written)], 0,
                            NO_FAULTS)
    ensures Honest(req, [1, 2])
    ensures Attempt(Files(None, None), req) == (Files(None, Some([1])), Installed(1))
  {
    var cut := req.arrivals[0];
    assert req.arrivals == [cut] && req.arrivals[1..] == [];
    assert Payload(req.arrivals) == cut.data + Payload([]);
    assert Payload([]) == [];
    assert LastProgress(req.arrivals, 0, 0.0) == 0.0;
    assert Header(req.headers, "Content-Range").None? && Header(req.headers, "Content-Length").None?;
    assert HeaderError(req).None?;
    assert CanInstall(Files(None, None), req);
    assert Kept(Files(None, None), req) + Payload(req.arrivals) == [1];
    InstallsIff(Files(None, None), req);
  }

  /** A successful attempt on an honest server that never declares a wrong total falls short of the served bytes
      exactly when it declares no total and its body is cut short; this can only be a fresh 200 response. */
  lemma FallsShortIff(files: Files, req: Request, served: Bytes)
    requires PartIsPrefix(files, served) && Honest(req, served)
    requires DeclaredSize(req.headers).None? || DeclaresTotal(req, served)
    requires Attempt(files, req).1.Installed?
    ensures Attempt(files, req).0.destination != Some(served)
       <==> DeclaredSize(req.headers).None? && req.resumeFrom + |Payload(req.arrivals)| < |served|
    ensures DeclaredSize(req.headers).None? ==> req.status == 200 && req.resumeFrom == 0
  {
    AttemptKeepsPrefix(files, req, served);
    InstallsIff(files, req);
    var whole := Kept(files, req) + Payload(req.arrivals);
    assert whole == served[..|whole|];
    assert served[..|served|] == served;
  }

  /** The first byte not yet kept, as a body of one chunk. */
  function OneByteBody(req: Request, served: Bytes): Request
    requires req.resumeFrom < |served|
  {
    req.(arrivals := [Chunk(req.startedAt, [served[req.resumeFrom]], Written)])
  }

  lemma OneByteInstalls(files: Files, req: Request, served: Bytes)
    requires req.resumeFrom < |served| && HeaderError(req).None? && DeclaredSize(req.headers).None?
    requires req.faults == NO_FAULTS && Within(req.resumeFrom + 1, req.maxBytes)
    requires req.resumeFrom > 0 ==> files.part.Some? && |files.part.value| == req.resumeFrom
    ensures var short := OneByteBody(req, served);
      Honest(short, served) && Attempt(files, short).1 == Installed(req.resumeFrom + 1)
  {
    var short := OneByteBody(req, served);
    OneByteIsReceived(short, short.arrivals[0]);
    OneByteInstallsWith(files, short, HeaderError(req), DeclaredSize(req.headers));
  }

  lemma OneByteIsReceived(req: Request, chunk: Arrival)
    requires req.arrivals == [chunk] && chunk.Chunk? && |chunk.data| == 1 && chunk.write.Written?
    requires chunk.at == req.startedAt
    ensures |Payload(req.arrivals)| == 1 && Payload(req.arrivals) == chunk.data
    ensures Intact(req.arrivals) && Timely(req.arrivals, req.startedAt, req.timeout)
  {
    assert req.arrivals[1..] == [] && chunk.data + [] == chunk.data;
    assert LastProgress(req.arrivals, 0, req.startedAt) == req.startedAt;
  }

  lemma OneByteInstallsWith(files: Files, req: Request, error: Option<ErrorCode>, declared: Option<nat>)
    requires error.None? && declared.None? && |Payload(req.arrivals)| == 1
    requires Intact(req.arrivals) && Timely(req.arrivals, req.startedAt, req.timeout)
    requires req.faults == NO_FAULTS && Within(req.resumeFrom + 1, req.maxBytes)
    requires req.resumeFrom > 0 ==> files.part.Some? && |files.part.value| == req.resumeFrom
    ensures AttemptWith(files, req, error, declared).1 == Installed(req.resumeFrom + 1)
  {
    InstallsWith(files, req, error, declared);
  }

  /** Whatever an honest server that never declares a wrong total sends, what is installed is whole exactly when the
      response declares a size. */
  lemma AlwaysWholeIff(files: Files, req: Request, served: Bytes)
    requires PartIsPrefix(files, served) && req.resumeFrom + 1 < |served|
    requires HeaderError(req).None? && (DeclaredSize(req.headers).None? || DeclaresTotal(req, served))
    requires req.faults == NO_FAULTS && Within(req.resumeFrom + 1, req.maxBytes)
    requires req.resumeFrom > 0 ==> files.part.Some? && |files.part.value| == req.resumeFrom
    ensures (forall body :: WholeIfInstalled(files, req.(arrivals := body), served))
       <==> DeclaredSize(req.headers).Some?
  {
    if DeclaredSize(req.headers).Some? {
      forall body
        ensures WholeIfInstalled(files, req.(arrivals := body), served)
      {
        var sent := req.(arrivals := body);
        if Honest(sent, served) && Attempt(files, sent).1.Installed? {
          DeclaredInstallIsWhole(files, sent, served);
        }
      }
    } else {
      var short := OneByteBody(req, served);
      OneByteInstalls(files, req, served);
      InstallsIff(files, short);
      assert short == req.(arrivals := short.arrivals);
      assert !WholeIfInstalled(files, req.(arrivals := short.arrivals), served);
    }
  }

  ghost predicate WholeIfInstalled(files: Files, req: Request, served: Bytes) {
    Honest(req, served) && Attempt(files, req).1.Installed? ==> Attempt(files, req).0.destination == Some(served)
  }

  /** A kept partial file is of use: asking for the rest, and getting all of it in time under the standard header,
      installs exactly the served bytes. */
  lemma ResumeCompletes(files: Files, req: Request, served: Bytes)
    requires files.part.Some? && files.part.value < served && files.part.value != []
    requires req.resumeFrom == |files.part.value| && req.status == 206
    requires req.headers == [("Content-Range", RenderContentRange(req.resumeFrom, |served| - 1, |served|))]
    requires Within(|served|, req.maxBytes)
    requires !req.faults.mkdir && !req.faults.open && req.faults.close.Written? && !req.faults.replace
    requires Intact(req.arrivals) && Timely(req.arrivals, req.startedAt, req.timeout)
    requires Payload(req.arrivals) == served[req.resumeFrom..]
    ensures Attempt(files, req) == (Files(None, Some(served)), Installed(|served|))
  {
    ResumeHeadersAccepted(req, req.resumeFrom, |served|);
    ResumeInstalls(files, req, served, HeaderError(req), DeclaredSize(req.headers));
  }

  lemma ResumeInstalls(files: Files, req: Request, served: Bytes, error: Option<ErrorCode>, declared: Option<nat>)
    requires files.part.Some? && files.part.value < served && files.part.value != []
    requires req.resumeFrom == |files.part.value| && error.None? && declared == Some(|served|)
    requires Within(|served|, req.maxBytes)
    requires !req.faults.mkdir && !req.faults.open && req.faults.close.Written? && !req.faults.replace
    requires Intact(req.arrivals) && Timely(req.arrivals, req.startedAt, req.timeout)
    requires Payload(req.arrivals) == served[req.resumeFrom..]
    ensures AttemptWith(files, req, error, declared) == (Files(None, Some(served)), Installed(|served|))
  {
    InstallsWith(files, req, error, declared);
    assert files.part.value + served[req.resumeFrom..] == served;
  }

  lemma HeadersOfResume(headers: Headers, range: string)
    requires headers == [("Content-Range", range)]
    ensures Header(headers, "Content-Range") == Some(range)
    ensures Header(headers, "Content-Type") == None
  {
    assert headers[1..] == [];
    assert Lower("Content-Range")[8] == 'r' && Lower("Content-Type")[8] == 't';
  }

  /** What the headers of a range response say. */
  lemma RangeHeadersSay(headers: Headers, start: nat, total: nat)
    requires total > 0 && headers == [("Content-Range", RenderContentRange(start, total - 1, total))]
    ensures Header(headers, "Content-Type") == None
    ensures ContentRangeTotal(headers) == Some(total) && ContentRangeStart(headers) == Some(start)
  {
    var range := headers[0].1;
    HeadersOfResume(headers, range);
    ContentRangeRoundTrip(start, total - 1, total);
    assert range[0] == 'b';
  }

  lemma ResumeHeadersAccepted(req: Request, start: nat, total: nat)
    requires req.resumeFrom in {0, start} && total > 0 && req.status == 206
    requires req.headers == [("Content-Range", RenderContentRange(start, total - 1, total))]
    requires Within(total, req.maxBytes)
    ensures HeaderError(req).None? && DeclaredSize(req.headers) == Some(total)
    ensures ContentRangeStart(req.headers) == Some(start)
  {
    RangeHeadersSay(req.headers, start, total);
  }
}
