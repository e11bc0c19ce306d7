/** What an attempt raises, and when: each refusal and failure of a download under its own condition. */
module DownloadFailures {
  import opened Text
  import opened HttpHeaders
  import opened ResumableDownload

  // ----- where a stream halts -----

  /** Everything before arrival i was read, written and counted without a reason to stop. */
  predicate RunsUpTo(content: Bytes, last: real, req: Request, arrivals: seq<Arrival>, i: int) {
    && 0 <= i <= |arrivals|
    && Intact(arrivals[..i]) && Timely(arrivals[..i], last, req.timeout)
    && (Payload(arrivals[..i]) == [] || Within(|content| + |Payload(arrivals[..i])|, req.maxBytes))
  }

  /** What arrival i does to a stream that has run up to it: the iterator raises, the chunk is late, it is too much, or
      it cannot be written. */
  predicate HaltsFor(content: Bytes, last: real, req: Request, arrivals: seq<Arrival>, i: int, code: ErrorCode)
    requires 0 <= i < |arrivals|
  {
    var size := |content| + |Payload(arrivals[..i])|;
    match arrivals[i]
    case Broken => code.OtherError?
    case Chunk(at, data, write) =>
      if !InTime(at, LastProgress(arrivals, i, last), req.timeout) then code.Stalled?
      else if data != [] && !Within(size + |data|, req.maxBytes) then code.SizeExceeded?
      else data != [] && write.Failed? && code.OtherError?
  }

  predicate HaltsAt(content: Bytes, last: real, req: Request, arrivals: seq<Arrival>, i: int, code: ErrorCode) {
    0 <= i < |arrivals| && RunsUpTo(content, last, req, arrivals, i) && HaltsFor(content, last, req, arrivals, i, code)
  }

  /** The first arrival is read and written without a reason to stop. */
  predicate Takes(content: Bytes, last: real, req: Request, a: Arrival) {
    && a.Chunk? && !TooLate(a.at, last, req.timeout)
    && (a.data != [] ==> !OverLimit(|content| + |a.data|, req.maxBytes) && a.write.Written?)
  }

  lemma StreamTakes(content: Bytes, last: real, req: Request, arrivals: seq<Arrival>)
    requires arrivals != []
    ensures Takes(content, last, req, arrivals[0]) ==>
      Stream(content, last, req, arrivals)
      == Stream(content + arrivals[0].data, Progressed(arrivals[0], last), req, arrivals[1..])
    ensures Stream(content, last, req, arrivals).Finished? ==> Takes(content, last, req, arrivals[0])
  {
    if arrivals[0].Chunk? && arrivals[0].data == [] {
      assert content + arrivals[0].data == content;
    }
  }

  /** What a run over the first arrivals makes of content and clock. */
  lemma RunTakes(content: Bytes, last: real, front: seq<Arrival>)
    requires front != []
    ensures content + Payload(front) == content + DataOf(front[0]) + Payload(front[1..])
    ensures LastProgress(front, |front|, last) == LastProgress(front[1..], |front| - 1, Progressed(front[0], last))
  {
    LastProgressShifts(front, |front| - 1, last);
    assert content + (DataOf(front[0]) + Payload(front[1..])) == content + DataOf(front[0]) + Payload(front[1..]);
  }

  lemma {:induction false} StreamGoesOn(content: Bytes, last: real, req: Request, front: seq<Arrival>,
                                        back: seq<Arrival>)
    requires Stream(content, last, req, front).Finished?
    ensures Stream(content, last, req, front + back)
         == Stream(content + Payload(front), LastProgress(front, |front|, last), req, back)
    decreases |front|
  {
    if front == [] {
      assert front + back == back && content + Payload(front) == content;
    } else {
      var a, rest := front[0], front[1..];
      StreamTakes(content, last, req, front);
      calc {
        Stream(content, last, req, front + back);
      ==
        { assert (front + back)[0] == a && (front + back)[1..] == rest + back;
          StreamTakes(content, last, req, front + back); }
        Stream(content + a.data, Progressed(a, last), req, rest + back);
      ==
        { StreamGoesOn(content + a.data, Progressed(a, last), req, rest, back); }
        Stream(content + a.data + Payload(rest), LastProgress(rest, |rest|, Progressed(a, last)), req, back);
      ==
        { RunTakes(content, last, front); }
        Stream(content + Payload(front), LastProgress(front, |front|, last), req, back);
      }
    }
  }

  lemma {:induction false} LastProgressOf(arrivals: seq<Arrival>, n: nat, i: nat, last: real)
    requires i <= n <= |arrivals|
    ensures LastProgress(arrivals[..n], i, last) == LastProgress(arrivals, i, last)
  {
    if i > 0 {
      LastProgressOf(arrivals, n, i - 1, last);
    }
  }

  lemma {:induction false} PayloadJoins(front: seq<Arrival>, back: seq<Arrival>)
    ensures Payload(front + back) == Payload(front) + Payload(back)
  {
    if front == [] {
      assert front + back == back;
    } else {
      assert (front + back)[1..] == front[1..] + back;
      PayloadJoins(front[1..], back);
    }
  }

  /** A stream that has run up to an arrival goes on with it. */
  lemma StreamReaches(content: Bytes, last: real, req: Request, arrivals: seq<Arrival>, i: nat)
    requires i <= |arrivals| && RunsUpTo(content, last, req, arrivals, i)
    ensures Stream(content, last, req, arrivals)
         == Stream(content + Payload(arrivals[..i]), LastProgress(arrivals, i, last), req, arrivals[i..])
  {
    assert arrivals[..i] + arrivals[i..] == arrivals;
    StreamFinishesIff(content, last, req, arrivals[..i]);
    StreamGoesOn(content, last, req, arrivals[..i], arrivals[i..]);
    LastProgressOf(arrivals, i, i, last);
  }

  lemma TimelyGrows(arrivals: seq<Arrival>, i: nat, last: real, timeout: Option<real>)
    requires i < |arrivals| && Timely(arrivals[..i], last, timeout)
    requires arrivals[i].Chunk? ==> InTime(arrivals[i].at, LastProgress(arrivals, i, last), timeout)
    ensures Timely(arrivals[..i + 1], last, timeout)
  {
    var front, next := arrivals[..i], arrivals[..i + 1];
    forall k | 0 <= k < |next| && next[k].Chunk?
      ensures InTime(next[k].at, LastProgress(next, k, last), timeout)
    {
      LastProgressOf(arrivals, i + 1, k, last);
      if k < i {
        LastProgressOf(arrivals, i, k, last);
        assert front[k] == next[k];
      }
    }
  }

  lemma IntactGrows(arrivals: seq<Arrival>, i: nat)
    requires i < |arrivals| && Intact(arrivals[..i])
    requires arrivals[i].Chunk? && (arrivals[i].data != [] ==> arrivals[i].write.Written?)
    ensures Intact(arrivals[..i + 1])
  {
    forall k | 0 <= k < i + 1
      ensures arrivals[k].Chunk? && (arrivals[k].data != [] ==> arrivals[k].write.Written?)
    {
      if k < i {
        assert arrivals[..i][k] == arrivals[k];
      }
    }
  }

  lemma PayloadGrows(arrivals: seq<Arrival>, i: nat)
    requires i < |arrivals|
    ensures Payload(arrivals[..i + 1]) == Payload(arrivals[..i]) + DataOf(arrivals[i])
  {
    assert arrivals[..i + 1] == arrivals[..i] + [arrivals[i]];
    PayloadJoins(arrivals[..i], [arrivals[i]]);
    assert Payload([arrivals[i]]) == DataOf(arrivals[i]) + Payload([]) == DataOf(arrivals[i]);
  }

  lemma RunsOn(content: Bytes, last: real, req: Request, arrivals: seq<Arrival>, i: nat)
    requires i < |arrivals| && RunsUpTo(content, last, req, arrivals, i)
    requires arrivals[i].Chunk? && InTime(arrivals[i].at, LastProgress(arrivals, i, last), req.timeout)
    requires arrivals[i].data != [] ==>
      arrivals[i].write.Written?
      && Within(|content| + |Payload(arrivals[..i])| + |arrivals[i].data|, req.maxBytes)
    ensures RunsUpTo(content, last, req, arrivals, i + 1)
  {
    TimelyGrows(arrivals, i, last, req.timeout);
    IntactGrows(arrivals, i);
    PayloadGrows(arrivals, i);
    if arrivals[i].data == [] {
      assert Payload(arrivals[..i + 1]) == Payload(arrivals[..i]);
    }
  }

  lemma HaltedHere(content: Bytes, last: real, req: Request, arrivals: seq<Arrival>, i: nat, code: ErrorCode)
    requires HaltsAt(content, last, req, arrivals, i, code)
    ensures var end := Stream(content, last, req, arrivals); end.Halted? && end.code == code
  {
    StreamReaches(content, last, req, arrivals, i);
    assert arrivals[i..][0] == arrivals[i];
  }

  lemma {:induction false} HaltIsFound(content: Bytes, last: real, req: Request, arrivals: seq<Arrival>, i: nat)
    returns (j: nat)
    requires i <= |arrivals| && RunsUpTo(content, last, req, arrivals, i)
    requires Stream(content, last, req, arrivals).Halted?
    ensures HaltsAt(content, last, req, arrivals, j, Stream(content, last, req, arrivals).code)
    decreases |arrivals| - i
  {
    StreamReaches(content, last, req, arrivals, i);
    assert i < |arrivals|;
    var a := arrivals[i];
    assert arrivals[i..][0] == a;
    if a.Chunk? && InTime(a.at, LastProgress(arrivals, i, last), req.timeout)
       && (a.data != [] ==>
             a.write.Written? && Within(|content| + |Payload(arrivals[..i])| + |a.data|, req.maxBytes)) {
      RunsOn(content, last, req, arrivals, i);
      j := HaltIsFound(content, last, req, arrivals, i + 1);
    } else {
      j := i;
    }
  }

  /** A stream halts with a code exactly when some arrival halts it with that code after everything before it ran. */
  lemma StreamHaltsIff(content: Bytes, last: real, req: Request, code: ErrorCode)
    ensures var end := Stream(content, last, req, req.arrivals);
      end.Halted? && end.code == code <==> exists i :: HaltsAt(content, last, req, req.arrivals, i, code)
  {
    var end := Stream(content, last, req, req.arrivals);
    if end.Halted? {
      assert req.arrivals[..0] == [];
      var i := HaltIsFound(content, last, req, req.arrivals, 0);
    }
    forall i | HaltsAt(content, last, req, req.arrivals, i, code)
      ensures end.Halted? && end.code == code
    {
      HaltedHere(content, last, req, req.arrivals, i, code);
    }
  }

  // ----- what an attempt raises -----

  /** The partial file is open: of the length to resume from, or fresh. */
  predicate Opens(files: Files, req: Request) {
    && !req.faults.open
    && (if req.resumeFrom > 0 then files.part.Some? && |files.part.value| == req.resumeFrom
        else !req.faults.freshUnlink)
  }

  ghost predicate StreamHalts(files: Files, req: Request, code: ErrorCode) {
    exists i :: HaltsAt(Kept(files, req), req.startedAt, req, req.arrivals, i, code)
  }

  /** Everything came and was written, in time and within the limit, and the file was closed. */
  predicate StreamEnds(files: Files, req: Request) {
    && Intact(req.arrivals) && Timely(req.arrivals, req.startedAt, req.timeout) && req.faults.close.Written?
    && (Payload(req.arrivals) == [] || Within(|Kept(files, req)| + |Payload(req.arrivals)|, req.maxBytes))
  }

  /** Why an attempt whose headers are in order fails with a code; nothing here fails for its headers' reasons. */
  ghost predicate FailsFor(files: Files, req: Request, declared: Option<nat>, code: ErrorCode) {
    match code
    case ResumeInvalid =>
      !req.faults.mkdir && req.resumeFrom > 0 && (files.part.None? || |files.part.value| != req.resumeFrom)
    case Stalled | SizeExceeded =>
      !req.faults.mkdir && Opens(files, req) && req.faults.close.Written? && StreamHalts(files, req, code)
    case EmptyBody =>
      !req.faults.mkdir && Opens(files, req) && StreamEnds(files, req) && Payload(req.arrivals) == []
    case Incomplete =>
      && !req.faults.mkdir && Opens(files, req) && StreamEnds(files, req) && Payload(req.arrivals) != []
      && declared.Some? && req.resumeFrom + |Payload(req.arrivals)| != declared.value
    case StatusInvalid | ContentRangeInvalid | ContentTypeInvalid => false
    case OtherError =>
      || req.faults.mkdir
      || (req.resumeFrom == 0 && req.faults.freshUnlink)
      || (req.faults.open && (req.resumeFrom > 0 ==> files.part.Some? && |files.part.value| == req.resumeFrom))
      || (Opens(files, req) && (req.faults.close.Failed? || StreamHalts(files, req, OtherError)))
      || (&& Opens(files, req) && StreamEnds(files, req) && Payload(req.arrivals) != [] && req.faults.replace
          && (declared.Some? ==> req.resumeFrom + |Payload(req.arrivals)| == declared.value))
  }

  /** The same, in terms of how the stream ends. */
  predicate EndFails(files: Files, req: Request, declared: Option<nat>, end: StreamEnd, code: ErrorCode) {
    var closes := req.faults.close.Written?;
    var complete := end.Finished? && closes && |end.content| > req.resumeFrom;
    var whole := declared.Some? ==> |end.content| == declared.value;
    !req.faults.mkdir && Opens(files, req) &&
      match code
      case Stalled | SizeExceeded => closes && end.Halted? && end.code == code
      case EmptyBody => end.Finished? && closes && |end.content| <= req.resumeFrom
      case Incomplete => complete && !whole
      case OtherError => !closes || (end.Halted? && end.code.OtherError?) || (complete && whole && req.faults.replace)
      case _ => false
  }

  /** Why an attempt does not even open its partial file. */
  predicate FailsToOpen(files: Files, req: Request, code: ErrorCode) {
    if req.faults.mkdir then code.OtherError?
    else if req.resumeFrom > 0 && (files.part.None? || |files.part.value| != req.resumeFrom) then code.ResumeInvalid?
    else !Opens(files, req) && code.OtherError?
  }

  lemma EndFailsWith(files: Files, req: Request, declared: Option<nat>, end: StreamEnd, code: ErrorCode)
    requires end == Stream(Kept(files, req), req.startedAt, req, req.arrivals)
    requires end.Halted? ==> end.code in {Stalled, SizeExceeded, OtherError}
    ensures AttemptWith(files, req, None, declared).1 == Raised(code) <==>
      FailsToOpen(files, req, code) || EndFails(files, req, declared, end, code)
  {
  }

  lemma EndFailsIff(files: Files, req: Request, declared: Option<nat>, end: StreamEnd, code: ErrorCode)
    requires end.Halted? && end.code == code <==> StreamHalts(files, req, code)
    requires end.Finished? && req.faults.close.Written? <==> StreamEnds(files, req)
    requires Opens(files, req) ==> |Kept(files, req)| == req.resumeFrom
    requires end.Finished? ==> end.content == Kept(files, req) + Payload(req.arrivals)
    ensures FailsToOpen(files, req, code) || EndFails(files, req, declared, end, code) <==>
      FailsFor(files, req, declared, code)
  {
  }

  lemma FailsWith(files: Files, req: Request, declared: Option<nat>, code: ErrorCode)
    ensures AttemptWith(files, req, None, declared).1 == Raised(code) <==> FailsFor(files, req, declared, code)
  {
    var kept := Kept(files, req);
    var end := Stream(kept, req.startedAt, req, req.arrivals);
    StreamHaltsIff(kept, req.startedAt, req, code);
    StreamFinishesIff(kept, req.startedAt, req, req.arrivals);
    StreamKeepsPrefix(kept, req.startedAt, req, req.arrivals);
    EndFailsWith(files, req, declared, end, code);
    EndFailsIff(files, req, declared, end, code);
  }

  /** An attempt with headers in order raises each code exactly for that code's reason; with others, what is wrong with
      the headers. */
  lemma RaisesIff(files: Files, req: Request, code: ErrorCode)
    ensures Attempt(files, req).1 == Raised(code) <==>
      || HeaderError(req) == Some(code)
      || (HeaderError(req).None? && FailsFor(files, req, DeclaredSize(req.headers), code))
  {
    FailsWith(files, req, DeclaredSize(req.headers), code);
  }

  /** A fresh attempt that cannot open its partial file leaves none, even when its clean-up fails. */
  lemma FreshFailureLeavesNone(files: Files, req: Request)
    requires HeaderError(req).None? && !req.faults.mkdir && req.resumeFrom == 0 && !req.faults.freshUnlink
    requires req.faults.open
    ensures Attempt(files, req) == (Files(None, files.destination), Raised(OtherError))
  {
  }
}
