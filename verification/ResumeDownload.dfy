/**
 The crash/restart protocol of ResumeableDownloader in
 cmd/hyperexport/parallel_download.go, as a step machine over the destination file,
 the checkpoint file and the HTTP reply.

 A history is any interleaving of download runs, ticker-driven checkpoint saves
 (which may land late), aborts and process crashes.  `remote` is the content behind
 the URL; the server obeys sections 14.2 and 15.3.7 of RFC 9110.
 */
module ResumeDownload {
  import opened Wrappers
  import opened ByteStrings

  datatype Checkpoint = Checkpoint(path: string, bytes: nat, completed: bool)

  datatype Phase =
    | Idle
    | Connecting(offset: nat)
      // base: the file when copying began; body: the reply; rest: what was not read yet;
      // counted: bytesDownloaded; uncounted: written, but not yet added to bytesDownloaded
    | Copying(status: nat, start: nat, base: Bytes, body: Bytes, rest: Bytes,
              counted: nat, uncounted: nat, failed: bool)
    | Finished(status: nat)

  // inflight: periodic saves that took their snapshot and did not land yet.
  // stale: final counts of ended runs whose ticker goroutine may still fire once.
  datatype State = State(file: Option<Bytes>, checkpoint: Option<Checkpoint>, phase: Phase,
                         inflight: seq<Checkpoint>, stale: multiset<nat>)

  datatype Event =
    | Start(appendOpens: bool)
    | Reply(status: nat, body: Bytes)
    | Write(read: nat, written: nat)
    | Count
    | Finish(saved: bool)
    | Snapshot
    | LateSnapshot(bytes: nat)
    | Retire(bytes: nat)
    | Land(i: nat, saved: bool)
    | Abort
    | Crash

  const OK := 200
  const PARTIAL := 206

  /** What an RFC 9110 server may answer when asked for bytes from `offset` on (0: no Range). */
  ghost predicate Honest(remote: Bytes, offset: nat, status: nat, body: Bytes) {
    && (status == OK ==> body == remote)
    && (status == PARTIAL ==> 0 < offset < |remote| && body == remote[offset..])
  }

  predicate Resumes(dest: string, s: State, appendOpens: bool) {
    && s.checkpoint.Some? && s.checkpoint.value.path == dest && !s.checkpoint.value.completed
    && appendOpens && s.file.Some?
  }

  ghost predicate Enabled(remote: Bytes, s: State, e: Event) {
    match e
    case Start(_) => s.phase.Idle? || s.phase.Finished?
    case Reply(status, body) => s.phase.Connecting? && Honest(remote, s.phase.offset, status, body)
    case Write(n, k) =>
      s.phase.Copying? && !s.phase.failed && s.phase.uncounted == 0 && 0 < n <= |s.phase.rest| && k <= n && s.file.Some?
    case Count => s.phase.Copying? && s.phase.uncounted > 0
    case Finish(_) => s.phase.Copying? && !s.phase.failed && s.phase.uncounted == 0 && s.phase.rest == []
    case Snapshot => s.phase.Copying?
    case LateSnapshot(b) => b in s.stale
    case Retire(b) => b in s.stale
    case Land(i, _) => i < |s.inflight|
    case Abort => s.phase.Connecting? || s.phase.Copying?
    case Crash => true
  }

  function Next(dest: string, remote: Bytes, s: State, e: Event): State
    requires Enabled(remote, s, e)
  {
    match e
    case Start(opens) =>
      if Resumes(dest, s, opens) then s.(phase := Connecting(s.checkpoint.value.bytes))
      else s.(file := Some([]), phase := Connecting(0))
    case Reply(status, body) =>
      var offset := s.phase.offset;
      if offset > 0 && status == PARTIAL && s.file.Some? then
        s.(phase := Copying(status, offset, s.file.value, body, body, offset, 0, false))
      else if offset > 0 && status == OK then
        s.(file := Some([]), phase := Copying(status, 0, [], body, body, 0, 0, false))
      else if offset == 0 && status == OK && s.file.Some? then
        s.(phase := Copying(status, 0, s.file.value, body, body, 0, 0, false))
      else s.(phase := Idle)
    case Write(n, k) =>
      var p := s.phase;
      s.(file := Some(s.file.value + p.rest[..k]),
         phase := p.(rest := p.rest[n..], uncounted := k, failed := k < n))
    case Count =>
      s.(phase := s.phase.(counted := s.phase.counted + s.phase.uncounted, uncounted := 0))
    case Finish(saved) =>
      var c := Checkpoint(dest, s.phase.counted, true);
      s.(checkpoint := if saved then Some(c) else s.checkpoint,
         phase := Finished(s.phase.status), stale := s.stale + multiset{s.phase.counted})
    case Snapshot => s.(inflight := s.inflight + [Checkpoint(dest, s.phase.counted, false)])
    case LateSnapshot(b) =>
      s.(inflight := s.inflight + [Checkpoint(dest, b, false)], stale := s.stale - multiset{b})
    case Retire(b) => s.(stale := s.stale - multiset{b})
    case Land(i, saved) =>
      s.(checkpoint := if saved then Some(s.inflight[i]) else s.checkpoint,
         inflight := s.inflight[..i] + s.inflight[i + 1..])
    case Abort =>
      s.(phase := Idle, stale := if s.phase.Copying? then s.stale + multiset{s.phase.counted} else s.stale)
    case Crash => s.(phase := Idle, inflight := [], stale := multiset{})
  }

  /**
   When a run resumes: only over a file that can be opened, from an unfinished checkpoint of its
   own path.  It then keeps the file and asks from the saved count on; otherwise it empties the
   file and asks for everything.
   */
  lemma StartMeans(dest: string, remote: Bytes, s: State, opens: bool)
    requires s.phase.Idle? || s.phase.Finished?
    ensures var t := Next(dest, remote, s, Start(opens));
      && t.checkpoint == s.checkpoint && t.inflight == s.inflight && t.stale == s.stale
      && match s.checkpoint
         case Some(Checkpoint(path, bytes, completed)) =>
           if path == dest && !completed && opens && s.file.Some? then t.file == s.file && t.phase == Connecting(bytes)
           else t.file == Some([]) && t.phase == Connecting(0)
         case None => t.file == Some([]) && t.phase == Connecting(0)
  {
  }

  /**
   What a reply does: 206 to a Range request goes on behind the file as it is, 200 to one starts
   over on an emptied file, 200 without one fills the file; any other ends the run.
   */
  lemma ReplyMeans(dest: string, remote: Bytes, s: State, status: nat, body: Bytes)
    requires s.phase.Connecting? && s.file.Some? && Enabled(remote, s, Reply(status, body))
    ensures var t, c := Next(dest, remote, s, Reply(status, body)), s.phase.offset;
      && t.checkpoint == s.checkpoint && t.inflight == s.inflight && t.stale == s.stale
      && if c > 0 && status == 200 then
           t.file == Some([]) && t.phase == Copying(status, 0, [], body, body, 0, 0, false)
         else
           && t.file == s.file
           && t.phase == if (c > 0 && status == 206) || status == 200
                         then Copying(status, c, s.file.value, body, body, c, 0, false) else Idle
  {
  }

  /** `es` leads from `s` to `t`. */
  ghost predicate Leads(dest: string, remote: Bytes, s: State, es: seq<Event>, t: State)
    decreases |es|
  {
    if es == [] then s == t
    else Enabled(remote, s, es[0]) && Leads(dest, remote, Next(dest, remote, s, es[0]), es[1..], t)
  }

  // ---------------------------------------------------------------- one run

  /** The copy loop has moved exactly the read part of `body` behind `base`. */
  ghost predicate CopyInv(s: State) {
    s.phase.Copying? ==>
      var p := s.phase;
      && s.file.Some?
      && |p.rest| <= |p.body|
      && p.rest == p.body[|p.body| - |p.rest|..]
      && p.base <= s.file.value <= p.base + p.body
      && (!p.failed ==> s.file.value == p.base + p.body[..|p.body| - |p.rest|])
      && p.counted + p.uncounted == p.start + |s.file.value| - |p.base|
  }

  /** Writing k of n read bytes extends the copied part of the body by k. */
  lemma CopyWrite(file: Bytes, base: Bytes, body: Bytes, rest: Bytes, n: nat, k: nat)
    requires |rest| <= |body| && rest == body[|body| - |rest|..] && k <= n <= |rest|
    requires file == base + body[..|body| - |rest|]
    ensures var file', rest' := file + rest[..k], rest[n..];
      && rest' == body[|body| - |rest'|..]
      && base <= file' <= base + body
      && (k == n ==> file' == base + body[..|body| - |rest'|])
  {
    var done := |body| - |rest|;
    assert body[..done] + rest[..k] == body[..done + k];
    assert file + rest[..k] == base + body[..done + k];
  }

  lemma CopyWriteStep(dest: string, remote: Bytes, s: State, n: nat, k: nat)
    requires CopyInv(s) && Enabled(remote, s, Write(n, k))
    ensures CopyInv(Next(dest, remote, s, Write(n, k)))
  {
    var p := s.phase;
    CopyWrite(s.file.value, p.base, p.body, p.rest, n, k);
    var t := Next(dest, remote, s, Write(n, k));
    assert |t.file.value| == |s.file.value| + k;
  }

  lemma CopyBegins(t: State)
    requires t.phase.Copying? && t.file == Some(t.phase.base)
    requires t.phase.rest == t.phase.body && t.phase.counted == t.phase.start && t.phase.uncounted == 0
    ensures CopyInv(t)
  {
    assert t.phase.base + t.phase.body[..0] == t.phase.base;
  }

  lemma CopyReplyStep(dest: string, remote: Bytes, s: State, e: Event)
    requires Enabled(remote, s, e) && e.Reply?
    ensures CopyInv(Next(dest, remote, s, e))
  {
    var t := Next(dest, remote, s, e);
    if t.phase.Copying? {
      hide CopyInv, Honest;
      CopyBegins(t);
    }
  }

  lemma CopyStep(dest: string, remote: Bytes, s: State, e: Event)
    requires CopyInv(s) && Enabled(remote, s, e)
    ensures CopyInv(Next(dest, remote, s, e))
  {
    if e.Write? {
      CopyWriteStep(dest, remote, s, e.read, e.written);
    } else if e.Reply? {
      CopyReplyStep(dest, remote, s, e);
    }
  }

  /** What the file holds when the copy loop begins, and what it holds after a successful run. */
  function BaseOf(was: Bytes, c: nat, status: nat): Bytes {
    if c == 0 || status == PARTIAL then was else []
  }

  function ResultOf(remote: Bytes, was: Bytes, c: nat, status: nat): Bytes {
    if c == 0 then was + remote
    else if status == PARTIAL && c <= |remote| then was + remote[c..]
    else remote
  }

  /** The replies that let a run go on: 200, or 206 to a satisfiable Range request. */
  predicate Answered(remote: Bytes, c: nat, status: nat) {
    status == OK || (status == PARTIAL && 0 < c < |remote|)
  }

  /** The states of a run that resumed at `c` over the file `was`. */
  ghost predicate InRun(remote: Bytes, was: Bytes, c: nat, s: State) {
    && CopyInv(s)
    && (s.phase.Connecting? ==> s.phase.offset == c && s.file == Some(was))
    && (s.phase.Copying? ==>
          s.phase.base == BaseOf(was, c, s.phase.status)
          && s.phase.base + s.phase.body == ResultOf(remote, was, c, s.phase.status)
          && Answered(remote, c, s.phase.status))
    && (s.phase.Finished? ==>
          s.file == Some(ResultOf(remote, was, c, s.phase.status)) && Answered(remote, c, s.phase.status))
  }

  lemma RunStep(dest: string, remote: Bytes, was: Bytes, c: nat, s: State, e: Event)
    requires InRun(remote, was, c, s) && Enabled(remote, s, e) && !e.Start?
    ensures InRun(remote, was, c, Next(dest, remote, s, e))
  {
    CopyStep(dest, remote, s, e);
    if e.Finish? {
      assert s.phase.body[..|s.phase.body|] == s.phase.body;
    } else if e.Reply? {
      assert [] + remote == remote;
    }
  }

  lemma {:induction false} RunKeeps(dest: string, remote: Bytes, was: Bytes, c: nat, s: State, es: seq<Event>, t: State)
    requires InRun(remote, was, c, s) && Leads(dest, remote, s, es, t)
    requires forall i :: 0 <= i < |es| ==> !es[i].Start?
    ensures InRun(remote, was, c, t)
    decreases |es|
  {
    if es != [] {
      RunStep(dest, remote, was, c, s, es[0]);
      RunKeeps(dest, remote, was, c, Next(dest, remote, s, es[0]), es[1..], t);
    }
  }

  /**
   A successful run that resumed at checkpoint offset c over the file `was` leaves
   was ++ remote[c..] (206, or no Range when c is 0), and exactly `remote` when a Range
   request was answered 200.
   */
  lemma ResumedRunResult(dest: string, remote: Bytes, s: State, es: seq<Event>, t: State)
    requires s.phase.Idle? && Resumes(dest, s, true)
    requires es != [] && es[0] == Start(true) && forall i :: 1 <= i < |es| ==> !es[i].Start?
    requires Leads(dest, remote, s, es, t) && t.phase.Finished?
    ensures var was, c := s.file.value, s.checkpoint.value.bytes;
      t.file == Some(ResultOf(remote, was, c, t.phase.status)) && Answered(remote, c, t.phase.status)
  {
    var u := Next(dest, remote, s, es[0]);
    RunKeeps(dest, remote, s.file.value, s.checkpoint.value.bytes, u, es[1..], t);
  }

  /** Appending from c on restores the content exactly when the file is its first c bytes. */
  lemma AppendIsExact(remote: Bytes, was: Bytes, c: nat)
    requires c <= |remote|
    ensures was + remote[c..] == remote <==> was == remote[..c]
  {
    var all := was + remote[c..];
    if all == remote {
      assert |was| == c && all[..c] == was;
    }
    assert remote[..c] + remote[c..] == remote;
  }

  /**
   A successful resumed run is correct exactly when the server sent everything anew (200 to a
   Range request) or the file on disk was exactly the content up to the checkpoint offset:
   the code appends at the end of the file and never truncates to the offset.
   */
  lemma ResumeCorrectIff(dest: string, remote: Bytes, s: State, es: seq<Event>, t: State)
    requires s.phase.Idle? && Resumes(dest, s, true)
    requires es != [] && es[0] == Start(true) && forall i :: 1 <= i < |es| ==> !es[i].Start?
    requires Leads(dest, remote, s, es, t) && t.phase.Finished?
    ensures var was, c := s.file.value, s.checkpoint.value.bytes;
      t.file == Some(remote) <==>
        (c > 0 && t.phase.status == OK) || (c <= |remote| && was == remote[..c])
  {
    ResumedRunResult(dest, remote, s, es, t);
    var was, c := s.file.value, s.checkpoint.value.bytes;
    if c <= |remote| {
      AppendIsExact(remote, was, c);
    }
    assert remote[0..] == remote;
  }

  /** For a file that is some prefix of the content, what decides is its length. */
  lemma ResumeCorrectIffAligned(dest: string, remote: Bytes, s: State, es: seq<Event>, t: State)
    requires s.phase.Idle? && Resumes(dest, s, true) && s.file.value <= remote
    requires es != [] && es[0] == Start(true) && forall i :: 1 <= i < |es| ==> !es[i].Start?
    requires Leads(dest, remote, s, es, t) && t.phase.Finished?
    ensures t.file == Some(remote) <==>
      (s.checkpoint.value.bytes > 0 && t.phase.status == OK) || |s.file.value| == s.checkpoint.value.bytes
  {
    ResumeCorrectIff(dest, remote, s, es, t);
    var was, c := s.file.value, s.checkpoint.value.bytes;
    assert was == remote[..|was|];
  }

  /** A run that does not resume, or whose Range request is answered 200, leaves exactly the content. */
  lemma FreshRunResult(dest: string, remote: Bytes, s: State, es: seq<Event>, t: State)
    requires s.phase.Idle? && es != [] && es[0].Start? && forall i :: 1 <= i < |es| ==> !es[i].Start?
    requires Leads(dest, remote, s, es, t) && t.phase.Finished?
    requires !Resumes(dest, s, es[0].appendOpens) || (s.checkpoint.value.bytes > 0 && t.phase.status == OK)
    ensures t.file == Some(remote)
  {
    var u := Next(dest, remote, s, es[0]);
    RunKeeps(dest, remote, u.file.value, u.phase.offset, u, es[1..], t);
    assert [] + remote == remote;
  }

  // ---------------------------------------------------------------- whole histories

  /** A Start that resumes finds a file that ends at the checkpoint offset. */
  ghost predicate Aligned(dest: string, s: State, e: Event) {
    e.Start? && Resumes(dest, s, e.appendOpens) ==> |s.file.value| == s.checkpoint.value.bytes
  }

  ghost predicate AlignedLeads(dest: string, remote: Bytes, s: State, es: seq<Event>, t: State)
    decreases |es|
  {
    if es == [] then s == t
    else
      && Enabled(remote, s, es[0]) && Aligned(dest, s, es[0])
      && AlignedLeads(dest, remote, Next(dest, remote, s, es[0]), es[1..], t)
  }

  /** The file is a prefix of the content, the count never runs ahead of it, a finished file is whole. */
  ghost predicate Sound(remote: Bytes, s: State) {
    && CopyInv(s)
    && (s.file.Some? ==> s.file.value <= remote)
    && (s.phase.Connecting? ==> s.file.Some? && |s.file.value| == s.phase.offset)
    && (s.phase.Copying? ==>
          s.phase.base + s.phase.body == remote && |s.phase.base| == s.phase.start
          && s.phase.counted <= |s.file.value|)
    && (s.phase.Finished? ==> s.file == Some(remote))
  }

  lemma SoundReply(dest: string, remote: Bytes, s: State, e: Event)
    requires Sound(remote, s) && Enabled(remote, s, e) && e.Reply?
    ensures Sound(remote, Next(dest, remote, s, e))
  {
    CopyStep(dest, remote, s, e);
    var f := s.file.value;
    assert f == remote[..|f|];
    assert remote[..|f|] + remote[|f|..] == remote;
    assert f == [] ==> f + remote == remote;
    assert [] + remote == remote;
  }

  lemma SoundStep(dest: string, remote: Bytes, s: State, e: Event)
    requires Sound(remote, s) && Enabled(remote, s, e) && Aligned(dest, s, e)
    ensures Sound(remote, Next(dest, remote, s, e))
  {
    if e.Reply? {
      SoundReply(dest, remote, s, e);
    } else {
      CopyStep(dest, remote, s, e);
      if e.Finish? {
        assert s.phase.body[..|s.phase.body|] == s.phase.body;
      }
    }
  }

  /**
   Safety over every history of runs, aborts, crashes and late saves in which each resume
   starts aligned: at every step the file is a prefix of the content, any snapshot taken is
   at most the file length, and whenever a run reports success the file is the content.
   */
  lemma {:induction false} AlignedHistorySound(dest: string, remote: Bytes, s: State, es: seq<Event>, t: State)
    requires Sound(remote, s) && AlignedLeads(dest, remote, s, es, t)
    ensures Sound(remote, t)
    decreases |es|
  {
    if es != [] {
      SoundStep(dest, remote, s, es[0]);
      AlignedHistorySound(dest, remote, Next(dest, remote, s, es[0]), es[1..], t);
    }
  }

  const NOTHING := State(None, None, Idle, [], multiset{})

  ghost predicate Reachable(dest: string, remote: Bytes, t: State) {
    exists es :: Leads(dest, remote, NOTHING, es, t)
  }

  lemma ReachStart(dest: string, remote: Bytes)
    ensures Reachable(dest, remote, NOTHING)
  {
    assert Leads(dest, remote, NOTHING, [], NOTHING);
  }

  lemma ReachStep(dest: string, remote: Bytes, s: State, e: Event)
    requires Reachable(dest, remote, s) && Enabled(remote, s, e)
    ensures Reachable(dest, remote, Next(dest, remote, s, e))
  {
    var es :| Leads(dest, remote, NOTHING, es, s);
    LeadsAppend(dest, remote, NOTHING, es, s, e);
    assert Leads(dest, remote, NOTHING, es + [e], Next(dest, remote, s, e));
  }

  lemma {:induction false} LeadsAppend(dest: string, remote: Bytes, s: State, es: seq<Event>, t: State, e: Event)
    requires Leads(dest, remote, s, es, t) && Enabled(remote, t, e)
    ensures Leads(dest, remote, s, es + [e], Next(dest, remote, t, e))
    decreases |es|
  {
    if es == [] {
      assert es + [e] == [e];
      assert Leads(dest, remote, Next(dest, remote, t, e), [e][1..], Next(dest, remote, t, e));
    } else {
      LeadsAppend(dest, remote, Next(dest, remote, s, es[0]), es[1..], t, e);
      assert (es + [e])[1..] == es[1..] + [e];
    }
  }

  /** A run that has counted its first byte and saved that offset. */
  function OneByteSaved(dest: string, a: Byte, b: Byte): State {
    State(Some([a]), Some(Checkpoint(dest, 1, false)), Copying(OK, 0, [], [a, b], [b], 1, 0, false), [], multiset{})
  }

  lemma OneByteSavedReachable(dest: string, a: Byte, b: Byte)
    ensures Reachable(dest, [a, b], OneByteSaved(dest, a, b))
  {
    hide Reachable;
    var r: Bytes := [a, b];
    assert r[..1] == [a] && r[1..] == [b];
    ReachStart(dest, r);
    ReachStep(dest, r, NOTHING, Start(true));
    var s1 := Next(dest, r, NOTHING, Start(true));
    ReachStep(dest, r, s1, Reply(OK, r));
    var s2 := Next(dest, r, s1, Reply(OK, r));
    ReachStep(dest, r, s2, Write(1, 1));
    var s3 := Next(dest, r, s2, Write(1, 1));
    ReachStep(dest, r, s3, Count);
    var s4 := Next(dest, r, s3, Count);
    ReachStep(dest, r, s4, Snapshot);
    var s5 := Next(dest, r, s4, Snapshot);
    ReachStep(dest, r, s5, Land(0, true));
    assert s3.file.value == [] + [a] == [a];
    assert Next(dest, r, s5, Land(0, true)) == OneByteSaved(dest, a, b);
  }

  /** It writes the second byte and crashes before the next save. */
  lemma CrashLeavesMisaligned(dest: string, a: Byte, b: Byte)
    ensures Reachable(dest, [a, b], State(Some([a, b]), Some(Checkpoint(dest, 1, false)), Idle, [], multiset{}))
  {
    hide Reachable;
    var r: Bytes := [a, b];
    var s := OneByteSaved(dest, a, b);
    OneByteSavedReachable(dest, a, b);
    ReachStep(dest, r, s, Write(1, 1));
    var u := Next(dest, r, s, Write(1, 1));
    assert u.file == Some(r) by {
      assert s.phase.rest[..1] == [b];
      assert [a] + [b] == r;
    }
    ReachStep(dest, r, u, Crash);
  }

  /**
   The alignment condition is not idle: from nothing, with an honest server and no lost
   write, a crash and a resume can end in reported success over a corrupt file.
   */
  lemma CrashThenResumeCorrupts(dest: string, a: Byte, b: Byte)
    ensures exists t :: Reachable(dest, [a, b], t) && t.phase.Finished? && t.file == Some([a, b, b])
  {
    var r: Bytes := [a, b];
    assert r[1..] == [b];
    CrashLeavesMisaligned(dest, a, b);
    var s0 := State(Some(r), Some(Checkpoint(dest, 1, false)), Idle, [], multiset{});
    ReachStep(dest, r, s0, Start(true));
    var s1 := Next(dest, r, s0, Start(true));
    ReachStep(dest, r, s1, Reply(PARTIAL, [b]));
    var s2 := Next(dest, r, s1, Reply(PARTIAL, [b]));
    ReachStep(dest, r, s2, Write(1, 1));
    var s3 := Next(dest, r, s2, Write(1, 1));
    assert s3.file == Some([a, b, b]) && s3.phase.rest == [] by {
      assert s2.phase.rest[..1] == [b];
      assert [a, b] + [b] == [a, b, b];
    }
    ReachStep(dest, r, s3, Count);
    var s4 := Next(dest, r, s3, Count);
    ReachStep(dest, r, s4, Finish(true));
  }

  /** The whole content on disk behind a checkpoint that still says unfinished. */
  ghost predicate Stranded(dest: string, remote: Bytes, s: State) {
    && remote != [] && s.file == Some(remote) && s.checkpoint == Some(Checkpoint(dest, |remote|, false))
    && s.inflight == [] && s.stale == multiset{}
    && (s.phase.Idle? || s.phase == Connecting(|remote|))
  }

  /** A download can finish with a periodic save of its last count still in flight. */
  lemma FinishedWithPending(dest: string, remote: Bytes) returns (s: State)
    requires remote != []
    ensures Reachable(dest, remote, s) && Sound(remote, s)
    ensures var n := |remote|;
      s == State(Some(remote), Some(Checkpoint(dest, n, true)), Finished(OK), [Checkpoint(dest, n, false)], multiset{n})
  {
    var n := |remote|;
    hide Reachable;
    ReachStart(dest, remote);
    ReachStep(dest, remote, NOTHING, Start(true));
    var s1 := State(Some([]), None, Connecting(0), [], multiset{});
    ReachStep(dest, remote, s1, Reply(OK, remote));
    var s2 := s1.(phase := Copying(OK, 0, [], remote, remote, 0, 0, false));
    ReachStep(dest, remote, s2, Write(n, n));
    assert [] + remote[..n] == remote && remote[n..] == [];
    var s3 := State(Some(remote), None, Copying(OK, 0, [], remote, [], 0, n, false), [], multiset{});
    assert Next(dest, remote, s2, Write(n, n)) == s3;
    ReachStep(dest, remote, s3, Count);
    var s4 := s3.(phase := Copying(OK, 0, [], remote, [], n, 0, false));
    ReachStep(dest, remote, s4, Snapshot);
    s := Next(dest, remote, s4, Snapshot);
    ReachStep(dest, remote, s, Finish(true));
    s := Next(dest, remote, s, Finish(true));
    assert multiset{} + multiset{n} == multiset{n};
  }

  /** A periodic save already in flight can land after the final one. */
  lemma LateSaveReachable(dest: string, remote: Bytes)
    requires remote != []
    ensures exists t :: Reachable(dest, remote, t) && Stranded(dest, remote, t)
  {
    hide Reachable;
    var s := FinishedWithPending(dest, remote);
    ReachStep(dest, remote, s, Land(0, true));
    var t := Next(dest, remote, s, Land(0, true));
    ReachStep(dest, remote, t, Crash);
    assert Stranded(dest, remote, Next(dest, remote, t, Crash));
  }

  /**
   From there no later history helps: every run asks for an empty range, which no honest
   server can answer 206, so as long as Range is not ignored (200) every run ends in error
   with the file and the checkpoint unchanged.
   */
  lemma {:induction false} StrandedForever(dest: string, remote: Bytes, s: State, es: seq<Event>, t: State)
    requires Stranded(dest, remote, s) && Leads(dest, remote, s, es, t)
    requires forall i :: 0 <= i < |es| ==> es[i] != Start(false) && !(es[i].Reply? && es[i].status == OK)
    ensures Stranded(dest, remote, t)
    decreases |es|
  {
    if es != [] {
      assert es[0] != Start(false) && !(es[0].Reply? && es[0].status == OK);
      StrandedForever(dest, remote, Next(dest, remote, s, es[0]), es[1..], t);
    }
  }

  /** What StrandedForever leaves out does help: a run over a new file, or one answered 200. */
  function Rescue(remote: Bytes, appendOpens: bool): seq<Event> {
    var n := |remote|;
    if n == 0 then [] else [Crash, Start(appendOpens), Reply(OK, remote), Write(n, n), Count, Finish(true)]
  }

  lemma RescueCopies(dest: string, remote: Bytes, c: Option<Checkpoint>)
    requires remote != []
    ensures var n := |remote|;
      Leads(dest, remote,
            State(Some([]), c, Copying(OK, 0, [], remote, remote, 0, 0, false), [], multiset{}),
            [Write(n, n), Count, Finish(true)],
            State(Some(remote), Some(Checkpoint(dest, n, true)), Finished(OK), [], multiset{n}))
  {
    var n := |remote|;
    var s := State(Some([]), c, Copying(OK, 0, [], remote, remote, 0, 0, false), [], multiset{});
    var t := State(Some(remote), c, Copying(OK, 0, [], remote, [], 0, n, false), [], multiset{});
    assert Next(dest, remote, s, Write(n, n)) == t by {
      assert remote[..n] == remote && [] + remote == remote && remote[n..] == [];
    }
    TwoSteps(dest, remote, t, Count, Finish(true));
    assert multiset{} + multiset{n} == multiset{n};
    assert [Write(n, n), Count, Finish(true)][1..] == [Count, Finish(true)];
  }

  lemma RescueBegins(dest: string, remote: Bytes, s: State, appendOpens: bool)
    requires Stranded(dest, remote, s)
    ensures Leads(dest, remote, s, [Crash, Start(appendOpens), Reply(OK, remote)],
                  State(Some([]), s.checkpoint, Copying(OK, 0, [], remote, remote, 0, 0, false), [], multiset{}))
  {
    var e, f, g := Crash, Start(appendOpens), Reply(OK, remote);
    var s1 := State(Some(remote), s.checkpoint, Idle, [], multiset{});
    TwoSteps(dest, remote, s1, f, g);
    assert Next(dest, remote, s, e) == s1;
    assert [e, f, g][1..] == [f, g];
  }

  lemma StrandedRescued(dest: string, remote: Bytes, s: State, appendOpens: bool)
    requires Stranded(dest, remote, s)
    ensures exists t ::
      && Leads(dest, remote, s, Rescue(remote, appendOpens), t) && t.phase.Finished?
      && t.file == Some(remote) && t.checkpoint == Some(Checkpoint(dest, |remote|, true))
  {
    hide Leads;
    var n := |remote|;
    var begin, copy := [Crash, Start(appendOpens), Reply(OK, remote)], [Write(n, n), Count, Finish(true)];
    var u := State(Some([]), s.checkpoint, Copying(OK, 0, [], remote, remote, 0, 0, false), [], multiset{});
    var t := State(Some(remote), Some(Checkpoint(dest, n, true)), Finished(OK), [], multiset{n});
    RescueBegins(dest, remote, s, appendOpens);
    RescueCopies(dest, remote, s.checkpoint);
    LeadsJoin(dest, remote, s, begin, u, copy, t);
    assert Rescue(remote, appendOpens) == begin + copy;
  }

  lemma {:induction false} LeadsJoin(dest: string, remote: Bytes, s: State, es: seq<Event>, t: State,
                                     more: seq<Event>, u: State)
    requires Leads(dest, remote, s, es, t) && Leads(dest, remote, t, more, u)
    ensures Leads(dest, remote, s, es + more, u)
    decreases |es|
  {
    hide Enabled, Next;
    if es == [] {
      assert es + more == more;
    } else {
      LeadsJoin(dest, remote, Next(dest, remote, s, es[0]), es[1..], t, more, u);
      assert (es + more)[1..] == es[1..] + more;
    }
  }

  lemma TwoSteps(dest: string, remote: Bytes, s: State, a: Event, b: Event)
    requires Enabled(remote, s, a) && Enabled(remote, Next(dest, remote, s, a), b)
    ensures Leads(dest, remote, s, [a, b], Next(dest, remote, Next(dest, remote, s, a), b))
  {
    assert [a, b][1..] == [b] && [b][1..] == [];
  }

  /** Every save in flight is of an unfinished download. */
  ghost predicate InflightUnfinished(s: State) {
    forall i :: 0 <= i < |s.inflight| ==> !s.inflight[i].completed
  }

  lemma InflightStep(dest: string, remote: Bytes, s: State, e: Event)
    requires InflightUnfinished(s) && Enabled(remote, s, e)
    ensures InflightUnfinished(Next(dest, remote, s, e))
  {
    hide Honest, Resumes;
  }

  lemma {:induction false} InflightStays(dest: string, remote: Bytes, s: State, es: seq<Event>, t: State)
    requires InflightUnfinished(s) && Leads(dest, remote, s, es, t)
    ensures InflightUnfinished(t)
    decreases |es|
  {
    hide Enabled, Next, InflightUnfinished;
    if es != [] {
      InflightStep(dest, remote, s, es[0]);
      InflightStays(dest, remote, Next(dest, remote, s, es[0]), es[1..], t);
    }
  }

  predicate Completed(s: State) { s.checkpoint.Some? && s.checkpoint.value.completed }

  /** Whatever happens, short of another run, the checkpoint keeps saying completed. */
  ghost predicate CompletedStays(dest: string, remote: Bytes, s: State) {
    forall es: seq<Event>, t: State ::
      Leads(dest, remote, s, es, t) && (forall i :: 0 <= i < |es| ==> !es[i].Start?) ==> Completed(t)
  }

  /** No run, and nothing left that could save a checkpoint. */
  ghost predicate Quiet(s: State) {
    (s.phase.Idle? || s.phase.Finished?) && s.inflight == [] && s.stale == multiset{}
  }

  lemma {:induction false} QuietStays(dest: string, remote: Bytes, s: State, es: seq<Event>, t: State)
    requires Quiet(s) && Leads(dest, remote, s, es, t)
    requires forall i :: 0 <= i < |es| ==> !es[i].Start?
    ensures t.checkpoint == s.checkpoint
    decreases |es|
  {
    if es != [] {
      assert !es[0].Start?;
      QuietStays(dest, remote, Next(dest, remote, s, es[0]), es[1..], t);
    }
  }

  /** A save in flight can land, and a leftover ticker can save once more. */
  lemma LeftoverUndoes(dest: string, remote: Bytes, s: State)
    requires InflightUnfinished(s) && (s.inflight != [] || s.stale != multiset{})
    ensures !CompletedStays(dest, remote, s)
  {
    var land := Land(0, true);
    if s.inflight != [] {
      var t := Next(dest, remote, s, land);
      assert Leads(dest, remote, s, [land], t) by {
        assert [land][1..] == [];
      }
      hide Leads, Next, Enabled;
      assert !Completed(t);
    } else {
      var b :| b in s.stale;
      var t := Next(dest, remote, Next(dest, remote, s, LateSnapshot(b)), land);
      TwoSteps(dest, remote, s, LateSnapshot(b), land);
      assert t.checkpoint == Some(Checkpoint(dest, b, false));
      hide Leads, Next, Enabled;
      assert !Completed(t);
    }
  }

  /**
   A finished download stays marked completed exactly when no periodic save is in flight and
   the ticker goroutines of all runs are gone.
   */
  lemma CompletedStaysIff(dest: string, remote: Bytes, s: State)
    requires Reachable(dest, remote, s) && s.phase.Finished? && Completed(s)
    ensures CompletedStays(dest, remote, s) <==> s.inflight == [] && s.stale == multiset{}
  {
    var before :| Leads(dest, remote, NOTHING, before, s);
    InflightStays(dest, remote, NOTHING, before, s);
    hide Leads;
    if s.inflight == [] && s.stale == multiset{} {
      forall es: seq<Event>, t: State |
        Leads(dest, remote, s, es, t) && (forall i :: 0 <= i < |es| ==> !es[i].Start?)
        ensures Completed(t)
      {
        QuietStays(dest, remote, s, es, t);
      }
    } else {
      LeftoverUndoes(dest, remote, s);
    }
  }

  // ---------------------------------------------------------------- what the saves of a run claim

  /** `es` is one run: a Start, and none after it. */
  ghost predicate OneRun(dest: string, remote: Bytes, s: State, es: seq<Event>, t: State) {
    && Leads(dest, remote, s, es, t)
    && es != [] && es[0].Start? && forall i :: 1 <= i < |es| ==> !es[i].Start?
  }

  predicate IsSave(e: Event) { e == Finish(true) || (e.Land? && e.saved) }

  /** Some checkpoint was written during these events. */
  predicate Saves(es: seq<Event>) { es != [] && (IsSave(es[0]) || Saves(es[1..])) }

  function Larger(a: nat, b: nat): nat { if a < b then b else a }

  /** The checkpoint names at most the bytes that are in the file, or m if that is more. */
  predicate Fits(t: State, m: nat) {
    t.checkpoint.Some? && t.file.Some? && t.checkpoint.value.bytes <= Larger(m, |t.file.value|)
  }

  /** No save in flight, and no ticker of an ended run, has more than m bytes to claim. */
  ghost predicate PendingAtMost(s: State, m: nat) { InflightAtMost(s.inflight, m) && StaleAtMost(s.stale, m) }

  predicate InflightAtMost(cs: seq<Checkpoint>, m: nat) { forall i :: 0 <= i < |cs| ==> cs[i].bytes <= m }

  ghost predicate StaleAtMost(counts: multiset<nat>, m: nat) { forall b :: b in counts ==> b <= m }

  /** What may be claimed in a run that began with m pending; while connecting the file may yet be truncated. */
  function Claimable(t: State, m: nat): nat
    requires t.file.Some?
  {
    if t.phase.Connecting? then m else Larger(m, |t.file.value|)
  }

  /** What such a run keeps; `saved`: it has written a checkpoint. */
  ghost predicate Fitting(remote: Bytes, t: State, m: nat, saved: bool) {
    && Sound(remote, t) && t.file.Some? && PendingAtMost(t, Claimable(t, m))
    && (saved ==> t.checkpoint.Some? && t.checkpoint.value.bytes <= Claimable(t, m))
  }

  lemma FinishWhole(remote: Bytes, s: State)
    requires Sound(remote, s) && Enabled(remote, s, Finish(true))
    ensures s.file == Some(remote) && s.phase.counted == |remote|
  {
    assert s.phase.body[..|s.phase.body|] == s.phase.body;
    assert |s.phase.base + s.phase.body| == |remote|;
  }

  /** While a run goes on the file only grows, but for the truncation when a Range request is answered 200. */
  lemma FileGrows(dest: string, remote: Bytes, s: State, e: Event)
    requires s.file.Some? && Enabled(remote, s, e) && !e.Start?
    ensures var t := Next(dest, remote, s, e);
      && t.file.Some? && (t.phase.Connecting? ==> s.phase.Connecting?)
      && (s.phase.Connecting? || |s.file.value| <= |t.file.value|)
  {
    hide Honest;
  }

  /** With at most m bytes to claim, a step keeps that bound, and what it saves is within it. */
  lemma PendingStep(dest: string, remote: Bytes, s: State, e: Event, m: nat)
    requires PendingAtMost(s, m) && (s.phase.Copying? ==> s.phase.counted <= m)
    requires Enabled(remote, s, e) && !e.Start?
    ensures PendingAtMost(Next(dest, remote, s, e), m)
  {
    NothingPending(m);
    hide Honest, Resumes, InflightAtMost, StaleAtMost;
    match e {
      case Snapshot => InflightMore(s.inflight, Checkpoint(dest, s.phase.counted, false), m);
      case Land(i, _) => InflightLess(s.inflight, i, m);
      case LateSnapshot(b) =>
        StaleLess(s.stale, b, m);
        InflightMore(s.inflight, Checkpoint(dest, b, false), m);
      case Retire(b) => StaleLess(s.stale, b, m);
      case Finish(_) => StaleMore(s.stale, s.phase.counted, m);
      case Abort =>
        if s.phase.Copying? {
          StaleMore(s.stale, s.phase.counted, m);
        }
      case _ =>
    }
  }

  lemma NothingPending(m: nat)
    ensures InflightAtMost([], m) && StaleAtMost(multiset{}, m)
  {
  }

  lemma InflightMore(cs: seq<Checkpoint>, c: Checkpoint, m: nat)
    requires InflightAtMost(cs, m) && c.bytes <= m
    ensures InflightAtMost(cs + [c], m)
  {
  }

  lemma InflightLess(cs: seq<Checkpoint>, i: nat, m: nat)
    requires InflightAtMost(cs, m) && i < |cs|
    ensures InflightAtMost(cs[..i] + cs[i + 1..], m)
  {
  }

  lemma StaleMore(counts: multiset<nat>, b: nat, m: nat)
    requires StaleAtMost(counts, m) && b <= m
    ensures StaleAtMost(counts + multiset{b}, m)
  {
  }

  lemma StaleLess(counts: multiset<nat>, b: nat, m: nat)
    requires StaleAtMost(counts, m) && b in counts
    ensures StaleAtMost(counts - multiset{b}, m) && b <= m
  {
  }

  lemma SaveStep(dest: string, remote: Bytes, s: State, e: Event, m: nat)
    requires PendingAtMost(s, m) && (s.phase.Copying? ==> s.phase.counted <= m)
    requires Enabled(remote, s, e) && !e.Start?
    ensures var c := Next(dest, remote, s, e).checkpoint;
      if IsSave(e) then c.Some? && c.value.bytes <= m else c == s.checkpoint
  {
    hide Honest;
  }

  lemma PendingMonotone(s: State, m: nat, n: nat)
    requires PendingAtMost(s, m) && m <= n
    ensures PendingAtMost(s, n)
  {
  }

  lemma FittingStep(dest: string, remote: Bytes, s: State, e: Event, m: nat, saved: bool)
    requires Fitting(remote, s, m, saved) && Enabled(remote, s, e) && !e.Start?
    ensures Fitting(remote, Next(dest, remote, s, e), m, saved || IsSave(e))
  {
    var n, t := Claimable(s, m), Next(dest, remote, s, e);
    SoundStep(dest, remote, s, e);
    PendingStep(dest, remote, s, e, n);
    SaveStep(dest, remote, s, e, n);
    FileGrows(dest, remote, s, e);
    hide Sound, Honest, Next, Enabled, IsSave, PendingAtMost;
    PendingMonotone(t, n, Claimable(t, m));
  }

  lemma {:induction false} FittingRun(dest: string, remote: Bytes, s: State, es: seq<Event>, t: State, m: nat,
                                      saved: bool)
    requires Fitting(remote, s, m, saved) && Leads(dest, remote, s, es, t)
    requires forall i :: 0 <= i < |es| ==> !es[i].Start?
    ensures Fitting(remote, t, m, saved || Saves(es))
    decreases |es|
  {
    hide Fitting, Enabled, Next, IsSave;
    if es != [] {
      assert !es[0].Start?;
      FittingStep(dest, remote, s, es[0], m, saved);
      FittingRun(dest, remote, Next(dest, remote, s, es[0]), es[1..], t, m, saved || IsSave(es[0]));
    }
  }

  lemma {:induction false} LeadsLast(dest: string, remote: Bytes, s: State, es: seq<Event>, t: State) returns (u: State)
    requires es != [] && Leads(dest, remote, s, es, t)
    ensures Leads(dest, remote, s, es[..|es| - 1], u)
    ensures Enabled(remote, u, es[|es| - 1]) && Next(dest, remote, u, es[|es| - 1]) == t
    decreases |es|
  {
    if |es| == 1 {
      u := s;
      assert es[..0] == [];
    } else {
      u := LeadsLast(dest, remote, Next(dest, remote, s, es[0]), es[1..], t);
      assert es[..|es| - 1][1..] == es[1..][..|es| - 2];
    }
  }

  lemma RunFits(dest: string, remote: Bytes, s: State, es: seq<Event>, t: State, m: nat)
    requires Sound(remote, s) && PendingAtMost(s, m)
    requires OneRun(dest, remote, s, es, t) && Aligned(dest, s, es[0])
    ensures Fitting(remote, t, m, Saves(es))
  {
    SoundStep(dest, remote, s, es[0]);
    hide Sound;
    FittingRun(dest, remote, Next(dest, remote, s, es[0]), es[1..], t, m, false);
  }

  /**
   A run that starts aligned while the saves pending from before claim at most m bytes: from
   its first save on, whenever the saves land and however the run ends, the checkpoint claims
   at most what the file has, or m if that is more, and no more than m until the reply has
   come; the final save claims the whole content.  With nothing pending m is 0.
   */
  lemma SavesTruthful(dest: string, remote: Bytes, s: State, es: seq<Event>, t: State, m: nat)
    requires Sound(remote, s) && PendingAtMost(s, m)
    requires OneRun(dest, remote, s, es, t) && Aligned(dest, s, es[0])
    ensures Saves(es) ==> Fits(t, m) && (t.phase.Connecting? ==> t.checkpoint.value.bytes <= m)
    ensures es[|es| - 1] == Finish(true) ==>
      t.file == Some(remote) && t.checkpoint == Some(Checkpoint(dest, |remote|, true))
  {
    RunFits(dest, remote, s, es, t, m);
    if es[|es| - 1] == Finish(true) {
      var u := LeadsLast(dest, remote, s, es, t);
      RunFits(dest, remote, s, es[..|es| - 1], u, m);
      hide Leads, Sound, PendingAtMost;
      FinishWhole(remote, u);
    }
  }

  /** Every run that starts aligned keeps to what the file has, or m. */
  ghost predicate SavesFit(dest: string, remote: Bytes, s: State, m: nat) {
    forall es: seq<Event>, t: State ::
      Saves(es) && OneRun(dest, remote, s, es, t) && Aligned(dest, s, es[0]) ==> Fits(t, m)
  }

  /** A save of more than m bytes from before can land on the truncated file. */
  lemma PendingOverclaims(dest: string, remote: Bytes, s: State, m: nat)
    requires (s.phase.Idle? || s.phase.Finished?) && !PendingAtMost(s, m)
    ensures exists es, t ::
      && OneRun(dest, remote, s, es, t) && Aligned(dest, s, es[0]) && Saves(es) && !Fits(t, m)
      && t.file == Some([]) && t.checkpoint.Some?
  {
    var e := Start(false);
    var u := Next(dest, remote, s, e);
    if i: nat :| i < |s.inflight| && s.inflight[i].bytes > m {
      var land := Land(i, true);
      TwoSteps(dest, remote, s, e, land);
      assert Saves([e, land]) by {
        assert [e, land][1..][0] == land;
      }
      assert OneRun(dest, remote, s, [e, land], Next(dest, remote, u, land));
    } else {
      var b :| b in s.stale && b > m;
      var late, land := LateSnapshot(b), Land(|s.inflight|, true);
      var v := Next(dest, remote, u, late);
      TwoSteps(dest, remote, u, late, land);
      var es := [e] + [late, land];
      assert es[1..] == [late, land] && es[1..][1..] == [land];
      var t := Next(dest, remote, v, land);
      assert Leads(dest, remote, s, es, t);
      assert t.checkpoint == Some(Checkpoint(dest, b, false));
      assert OneRun(dest, remote, s, es, t) && Saves(es);
    }
  }

  /** That happens: for every content a state with such a save is reached from nothing. */
  lemma OverclaimReachable(dest: string, remote: Bytes)
    requires remote != []
    ensures exists s :: Reachable(dest, remote, s) && Sound(remote, s) && !SavesFit(dest, remote, s, 0)
  {
    var s := FinishedWithPending(dest, remote);
    assert s.inflight[0].bytes > 0;
    hide Reachable, Sound, OneRun, Aligned;
    PendingOverclaims(dest, remote, s, 0);
  }

  /**
   So before a run begins, m bounds the excess of its saves exactly when it bounds what is
   pending; and for m = 0 they can be trusted exactly when nothing pending claims a byte.
   */
  lemma SavesFitIff(dest: string, remote: Bytes, s: State, m: nat)
    requires Sound(remote, s) && (s.phase.Idle? || s.phase.Finished?)
    ensures SavesFit(dest, remote, s, m) <==> PendingAtMost(s, m)
  {
    hide Sound, OneRun, PendingAtMost, Aligned;
    if PendingAtMost(s, m) {
      forall es: seq<Event>, t: State | Saves(es) && OneRun(dest, remote, s, es, t) && Aligned(dest, s, es[0])
        ensures Fits(t, m)
      {
        SavesTruthful(dest, remote, s, es, t, m);
      }
    } else {
      PendingOverclaims(dest, remote, s, m);
    }
  }

  // ---------------------------------------------------------------- the download loop

  /** A run that began at s with the event `begun` can be at t. */
  ghost predicate RunTo(dest: string, remote: Bytes, s: State, begun: Event, t: State) {
    exists es :: OneRun(dest, remote, s, es, t) && es[0] == begun
  }

  lemma HonestLength(remote: Bytes, offset: nat, status: nat, body: Bytes)
    requires Honest(remote, offset, status, body)
    ensures status == OK ==> |body| == |remote|
    ensures status == PARTIAL ==> offset + |body| == |remote|
  {
  }

  lemma RunBegins(dest: string, remote: Bytes, s: State, e: Event)
    requires e.Start? && Enabled(remote, s, e)
    ensures RunTo(dest, remote, s, e, Next(dest, remote, s, e))
  {
    var t := Next(dest, remote, s, e);
    assert [e][1..] == [] && Leads(dest, remote, t, [], t);
    assert OneRun(dest, remote, s, [e], t);
  }

  lemma RunGoesOn(dest: string, remote: Bytes, s: State, begun: Event, t: State, e: Event)
    requires RunTo(dest, remote, s, begun, t) && Enabled(remote, t, e) && !e.Start?
    ensures RunTo(dest, remote, s, begun, Next(dest, remote, t, e))
  {
    var es :| OneRun(dest, remote, s, es, t) && es[0] == begun;
    LeadsAppend(dest, remote, s, es, t, e);
    assert OneRun(dest, remote, s, es + [e], Next(dest, remote, t, e));
  }

  /** The file holds base and the part of body before rest. */
  ghost predicate Moved(file: Bytes, base: Bytes, body: Bytes, rest: Bytes) {
    |rest| <= |body| && rest == body[|body| - |rest|..] && file == base + body[..|body| - |rest|]
  }

  lemma MovedNone(base: Bytes, body: Bytes)
    ensures Moved(base, base, body, body)
  {
    assert base + body[..0] == base;
  }

  lemma MovedOn(file: Bytes, base: Bytes, body: Bytes, rest: Bytes, n: nat)
    requires Moved(file, base, body, rest) && n <= |rest|
    ensures Moved(file + rest[..n], base, body, rest[n..])
  {
    CopyWrite(file, base, body, rest, n, n);
  }

  lemma MovedBetween(file: Bytes, base: Bytes, body: Bytes, rest: Bytes)
    requires Moved(file, base, body, rest)
    ensures base <= file <= base + body && |rest| <= |body|
  {
  }

  lemma MovedPartly(file: Bytes, base: Bytes, body: Bytes, rest: Bytes, k: nat)
    requires Moved(file, base, body, rest) && k <= |rest|
    ensures base <= file + rest[..k] <= base + body
  {
    CopyWrite(file, base, body, rest, k, k);
  }

  lemma MovedAll(file: Bytes, base: Bytes, body: Bytes)
    requires Moved(file, base, body, [])
    ensures file == base + body
  {
    assert body[..|body|] == body;
  }

  /** What the ticker goroutines do, that of this run and those left over from earlier ones. */
  predicate ByTicker(e: Event) { e.Snapshot? || e.LateSnapshot? || e.Land? || e.Retire? }

  /** From t to u only ticker steps out of `moves` are made. */
  ghost predicate TickersLead(dest: string, remote: Bytes, t: State, moves: seq<Event>, u: State) {
    exists es :: Leads(dest, remote, t, es, u) && forall i :: 0 <= i < |es| ==> ByTicker(es[i]) && es[i] in moves
  }

  /** The ticker steps of `moves`, in order, leaving out those that are not possible when their turn comes. */
  ghost function Ticked(dest: string, remote: Bytes, t: State, moves: seq<Event>): State
    decreases |moves|
  {
    if moves == [] then t
    else
      var e := moves[0];
      Ticked(dest, remote, if ByTicker(e) && Enabled(remote, t, e) then Next(dest, remote, t, e) else t, moves[1..])
  }

  lemma TickersRest(dest: string, remote: Bytes, t: State, moves: seq<Event>)
    ensures TickersLead(dest, remote, t, moves, t)
  {
    assert Leads(dest, remote, t, [], t);
  }

  lemma TickersGoOn(dest: string, remote: Bytes, t: State, moves: seq<Event>, u: State, e: Event)
    requires TickersLead(dest, remote, t, moves, u) && Enabled(remote, u, e) && ByTicker(e) && e in moves
    ensures TickersLead(dest, remote, t, moves, Next(dest, remote, u, e))
  {
    var es :| Leads(dest, remote, t, es, u) && forall i :: 0 <= i < |es| ==> ByTicker(es[i]) && es[i] in moves;
    LeadsAppend(dest, remote, t, es, u, e);
  }

  /**
   What a run meets.  By iteration of the copy loop: how much a read returns, whether it
   fails, whether the end comes with the last data; how much of n bytes a write accepts; when
   the context is cancelled.  And what the ticker goroutines try to do while the run waits
   for the reply, in iteration i between the write and the count, and behind the count.
   */
  datatype World = World(serve: nat -> (nat, Bytes), piece: nat -> nat, readFails: nat -> bool,
                         endsWithData: nat -> bool, accepted: (nat, nat) -> nat, cancelled: nat -> bool,
                         waiting: seq<Event>, writing: nat -> seq<Event>, reading: nat -> seq<Event>,
                         finalSaved: bool)

  class ResumeableDownloader {
    var file: Option<Bytes>
    var checkpoint: Option<Checkpoint>
    var inflight: seq<Checkpoint>
    var stale: multiset<nat>

    constructor (onDisk: Option<Bytes>, saved: Option<Checkpoint>)
      ensures AtRest() == State(onDisk, saved, Idle, [], multiset{})
    {
      file, checkpoint, inflight, stale := onDisk, saved, [], multiset{};
    }

    ghost function AtRest(): State
      reads this
    {
      State(file, checkpoint, Idle, inflight, stale)
    }

    /** The fields are those of t, and the run that began at s can be there. */
    ghost predicate Running(dest: string, remote: Bytes, s: State, begun: Event, t: State)
      reads this
    {
      t == State(file, checkpoint, t.phase, inflight, stale) && RunTo(dest, remote, s, begun, t)
    }

    /**
     DownloadWithResume, whatever saves of this and earlier runs overlap it.  The code does a
     run of the step machine; when it returns no error the file is what ResultOf says, or the
     remote content itself when nothing was resumed, and the final save claims the whole
     content either way.
     */
    method DownloadWithResume(dest: string, ghost remote: Bytes, appendOpens: bool, w: World)
      returns (err: bool, ghost t: State, ghost last: nat, ghost size: nat)
      requires forall offset :: Honest(remote, offset, w.serve(offset).0, w.serve(offset).1)
      modifies this
      ensures Running(dest, remote, old(AtRest()), Start(appendOpens), t)
      ensures err ==> t.phase.Idle?
      ensures !err ==> t.phase.Finished?
      ensures !err && w.finalSaved ==> checkpoint == Some(Checkpoint(dest, |remote|, true))
      ensures !err ==> file == Some(
        if Resumes(dest, old(AtRest()), appendOpens) then
          ResultOf(remote, old(file).value, old(checkpoint).value.bytes, t.phase.status)
        else remote)
      ensures var c, resumes := old(checkpoint), old(checkpoint).Some? && old(file).Some? && appendOpens
                && old(checkpoint).value.path == dest && !old(checkpoint).value.completed;
        var offset := if resumes then c.value.bytes else 0;
        var (status, body) := w.serve(offset);
        var before := if resumes then old(file).value else [];
        if status == 200 || (status == 206 && offset > 0) then
          var base := if status == 200 && offset > 0 then [] else before;
          && (!err ==> file == Some(base + body))
          && file.Some? && base <= file.value <= base + body
          && (forall i :: 0 <= i < last ==> !w.cancelled(i) && !w.readFails(i))
          && (err <==> w.cancelled(last) || w.readFails(last) || w.accepted(last, size) < size <= |body|)
        else err && file == Some(before)
    {
      hide RunTo, ResultOf, TickersLead, Ticked, Next, Honest;
      ghost var s, begun := AtRest(), Start(appendOpens);
      StartMeans(dest, remote, s, appendOpens);
      var startOffset := 0;
      if checkpoint.Some? && checkpoint.value.path == dest && !checkpoint.value.completed && appendOpens && file.Some? {
        startOffset := checkpoint.value.bytes;
      } else {
        file := Some([]);
      }
      RunBegins(dest, remote, s, begun);
      t := TickersRun(dest, remote, s, begun, Next(dest, remote, s, begun), None, w.waiting);
      err, t, last, size := Download(dest, remote, s, begun, t, startOffset, w);
      if !err {
        FinishedRun(dest, remote, s, begun, t);
      }
    }

    /** The request, and what its reply allows. */
    method Download(dest: string, ghost remote: Bytes, ghost s: State, ghost begun: Event, ghost t0: State,
                    offset: nat, w: World)
      returns (err: bool, ghost t: State, ghost last: nat, ghost size: nat)
      requires Honest(remote, offset, w.serve(offset).0, w.serve(offset).1)
      requires file.Some? && Running(dest, remote, s, begun, t0) && t0.phase == Connecting(offset)
      modifies this
      ensures Running(dest, remote, s, begun, t)
      ensures err ==> t.phase.Idle?
      ensures !err ==> t.phase.Finished?
      ensures !err && w.finalSaved ==> checkpoint == Some(Checkpoint(dest, |remote|, true))
      ensures var (status, body) := w.serve(offset);
        if status == 200 || (status == 206 && offset > 0) then
          var base := if status == 200 && offset > 0 then [] else old(file).value;
          && (!err ==> file == Some(base + body))
          && file.Some? && base <= file.value <= base + body
          && (forall i :: 0 <= i < last ==> !w.cancelled(i) && !w.readFails(i))
          && (err <==> w.cancelled(last) || w.readFails(last) || w.accepted(last, size) < size <= |body|)
        else err && file == old(file)
    {
      hide RunTo, Next, Honest;
      t := t0;
      var startOffset := offset;
      var (status, body) := w.serve(startOffset);
      ReplyMeans(dest, remote, t, status, body);
      HonestLength(remote, startOffset, status, body);
      RunGoesOn(dest, remote, s, begun, t, Reply(status, body));
      t := Next(dest, remote, t, Reply(status, body));
      if startOffset > 0 {
        if status != PARTIAL && status != OK {
          return true, t, 0, 0;
        }
        if status == OK {
          file := Some([]);
          startOffset := 0;
        }
      } else if status != OK {
        return true, t, 0, 0;
      }
      err, t, last, size := CopyBody(dest, remote, s, begun, t, status, startOffset, body, w);
    }

    /** The copy loop: it succeeds exactly when the whole body was read and written. */
    method CopyBody(dest: string, ghost remote: Bytes, ghost s: State, ghost begun: Event, ghost t0: State,
                    status: nat, start: nat, body: Bytes, w: World)
      returns (err: bool, ghost t: State, ghost last: nat, ghost size: nat)
      requires file.Some? && Running(dest, remote, s, begun, t0)
      requires t0.phase == Copying(status, start, file.value, body, body, start, 0, false)
      modifies this
      ensures Running(dest, remote, s, begun, t)
      ensures err ==> t.phase.Idle?
      ensures !err ==> t.phase == Finished(status) && file == Some(old(file).value + body)
      ensures !err && w.finalSaved ==> checkpoint == Some(Checkpoint(dest, start + |body|, true))
      ensures file.Some? && old(file).value <= file.value <= old(file).value + body
      ensures forall i :: 0 <= i < last ==> !w.cancelled(i) && !w.readFails(i)
      ensures err <==> w.cancelled(last) || w.readFails(last) || w.accepted(last, size) < size <= |body|
    {
      ghost var base := file.value;
      var bytesDownloaded: nat, rest, i, atEnd := start, body, 0, false;
      t, err, last, size := t0, false, 0, 0;
      MovedNone(base, body);
      hide Moved, RunTo, Running, Next, Enabled;
      while !atEnd
        invariant file.Some? && Moved(file.value, base, body, rest)
        invariant t.phase == Copying(status, start, base, body, rest, bytesDownloaded, 0, false)
        invariant bytesDownloaded + |rest| == start + |body| && |rest| <= |body|
        invariant Running(dest, remote, s, begun, t)
        invariant forall j :: 0 <= j < i ==> !w.cancelled(j) && !w.readFails(j)
        invariant i > 0 ==> last == i - 1 && w.accepted(last, size) >= size
        invariant atEnd ==> i > 0 && rest == []
        decreases |rest|, !atEnd
      {
        ghost var was := file.value;
        var n, k;
        err, atEnd, n, k, t := CopyOnce(dest, remote, s, begun, t, rest, bytesDownloaded, i, w);
        last, size := i, n;
        MovedPartly(was, base, body, rest, k);
        if err {
          return true, t, last, size;
        }
        MovedOn(was, base, body, rest, n);
        rest, bytesDownloaded := rest[n..], bytesDownloaded + n;
        i := i + 1;
      }
      MovedAll(file.value, base, body);
      t := FinishRun(dest, remote, s, begun, t, bytesDownloaded, w.finalSaved);
    }

    /**
     One iteration: n bytes are read and k of them written.  It fails when the context is
     cancelled before it, on a short write, or when the read failed; a read of nothing is the end.
     */
    method CopyOnce(dest: string, ghost remote: Bytes, ghost s: State, ghost begun: Event, ghost t0: State,
                    rest: Bytes, counted: nat, i: nat, w: World)
      returns (err: bool, atEnd: bool, n: nat, k: nat, ghost t: State)
      requires file.Some? && Running(dest, remote, s, begun, t0) && t0.phase.Copying?
      requires t0.phase.rest == rest && t0.phase.counted == counted && t0.phase.uncounted == 0 && !t0.phase.failed
      modifies this
      ensures Running(dest, remote, s, begun, t)
      ensures k <= n <= |rest| && file == Some(old(file).value + rest[..k])
      ensures err <==> w.cancelled(i) || w.readFails(i) || w.accepted(i, n) < n
      ensures err ==> t.phase.Idle?
      ensures !err ==> k == n && t.phase == t0.phase.(rest := rest[n..], counted := counted + n)
      ensures !err ==> (n > 0 || atEnd) && (atEnd <==> rest[n..] == [] && (n == 0 || w.endsWithData(i)))
      ensures !w.cancelled(i) ==>
        && n == (if w.piece(i) == 0 && rest != [] && !w.readFails(i) then 1
                 else if w.piece(i) > |rest| then |rest| else w.piece(i))
        && k == if w.accepted(i, n) < n then w.accepted(i, n) else n
    {
      hide RunTo, Running, TickersLead, Ticked, Next, Enabled;
      err, atEnd, n, k, t := false, false, 0, 0, t0;
      assert file.value + rest[..0] == file.value;
      if w.cancelled(i) {
        t := StopRun(dest, remote, s, begun, t, counted);
        return true, atEnd, n, k, t;
      }
      n := if w.piece(i) > |rest| then |rest| else w.piece(i);
      if n == 0 && rest != [] && !w.readFails(i) {
        n := 1;
      }
      if n > 0 {
        k := if w.accepted(i, n) < n then w.accepted(i, n) else n;
        t := CopyPiece(dest, remote, s, begun, t, rest, n, k, counted, w.writing(i));
        if k < n {
          t := StopRun(dest, remote, s, begun, t, counted + k);
          return true, atEnd, n, k, t;
        }
      }
      if w.readFails(i) {
        t := StopRun(dest, remote, s, begun, t, counted + k);
        return true, atEnd, n, k, t;
      }
      atEnd := rest[n..] == [] && (n == 0 || w.endsWithData(i));
      t := TickersRun(dest, remote, s, begun, t, Some(counted + k), w.reading(i));
    }

    /** Returning with an error, which leaves the ticker goroutine to notice. */
    method StopRun(dest: string, ghost remote: Bytes, ghost s: State, ghost begun: Event, ghost t0: State, counted: nat)
      returns (ghost t: State)
      requires Running(dest, remote, s, begun, t0) && t0.phase.Copying? && t0.phase.counted == counted
      modifies this`stale
      ensures Running(dest, remote, s, begun, t) && t == Next(dest, remote, t0, Abort) && t.phase.Idle?
      ensures stale == old(stale) + multiset{counted}
    {
      hide RunTo;
      RunGoesOn(dest, remote, s, begun, t0, Abort);
      t := Next(dest, remote, t0, Abort);
      stale := stale + multiset{counted};
    }

    /** The final save, which may fail, and the same. */
    method FinishRun(dest: string, ghost remote: Bytes, ghost s: State, ghost begun: Event, ghost t0: State,
                     counted: nat, saved: bool)
      returns (ghost t: State)
      requires Running(dest, remote, s, begun, t0) && t0.phase.Copying? && t0.phase.counted == counted
      requires !t0.phase.failed && t0.phase.uncounted == 0 && t0.phase.rest == []
      modifies this`stale, this`checkpoint
      ensures Running(dest, remote, s, begun, t) && t == Next(dest, remote, t0, Finish(saved))
      ensures t.phase == Finished(t0.phase.status)
      ensures checkpoint == if saved then Some(Checkpoint(dest, counted, true)) else old(checkpoint)
      ensures stale == old(stale) + multiset{counted}
    {
      hide RunTo;
      RunGoesOn(dest, remote, s, begun, t0, Finish(saved));
      t := Next(dest, remote, t0, Finish(saved));
      if saved {
        checkpoint := Some(Checkpoint(dest, counted, true));
      }
      stale := stale + multiset{counted};
    }

    /**
     The ticker goroutines make what steps of `moves` they can.  `counted` is bytesDownloaded
     while a copy loop runs, and None before it.
     */
    method TickersRun(dest: string, ghost remote: Bytes, ghost s: State, ghost begun: Event, ghost t0: State,
                      counted: Option<nat>, moves: seq<Event>)
      returns (ghost t: State)
      requires Running(dest, remote, s, begun, t0)
      requires if counted.Some? then t0.phase.Copying? && t0.phase.counted == counted.value else !t0.phase.Copying?
      modifies this`checkpoint, this`inflight, this`stale
      ensures Running(dest, remote, s, begun, t) && t.phase == t0.phase
      ensures t == Ticked(dest, remote, t0, moves) && TickersLead(dest, remote, t0, moves, t)
    {
      t := t0;
      TickersRest(dest, remote, t0, moves);
      hide Running, TickersLead, Next;
      for i := 0 to |moves|
        invariant Running(dest, remote, s, begun, t) && t.phase == t0.phase
        invariant TickersLead(dest, remote, t0, moves, t)
        invariant Ticked(dest, remote, t0, moves) == Ticked(dest, remote, t, moves[i..])
      {
        assert moves[i..][1..] == moves[i + 1..];
        CanTickMeans(dest, remote, s, begun, t, counted, moves[i]);
        if CanTick(counted, moves[i]) {
          ghost var u := t;
          t := TickerMoves(dest, remote, s, begun, t, counted, moves[i]);
          TickersGoOn(dest, remote, t0, moves, u, moves[i]);
        }
      }
    }

    predicate CanTick(counted: Option<nat>, e: Event)
      reads this
    {
      match e
      case Snapshot => counted.Some?
      case LateSnapshot(b) => b in stale
      case Land(i, _) => i < |inflight|
      case Retire(b) => b in stale
      case _ => false
    }

    lemma CanTickMeans(dest: string, remote: Bytes, s: State, begun: Event, t: State, counted: Option<nat>, e: Event)
      requires Running(dest, remote, s, begun, t) && (counted.Some? <==> t.phase.Copying?)
      ensures CanTick(counted, e) <==> ByTicker(e) && Enabled(remote, t, e)
    {
    }

    /** One step of a ticker goroutine: take a snapshot of the count, save one, or end. */
    method TickerMoves(dest: string, ghost remote: Bytes, ghost s: State, ghost begun: Event, ghost t0: State,
                       counted: Option<nat>, e: Event)
      returns (ghost t: State)
      requires Running(dest, remote, s, begun, t0) && CanTick(counted, e)
      requires if counted.Some? then t0.phase.Copying? && t0.phase.counted == counted.value else !t0.phase.Copying?
      modifies this`checkpoint, this`inflight, this`stale
      ensures Enabled(remote, t0, e) && ByTicker(e) && t == Next(dest, remote, t0, e)
      ensures Running(dest, remote, s, begun, t) && t.phase == t0.phase
      ensures match e
              case Snapshot => inflight == old(inflight) + [Checkpoint(dest, counted.value, false)]
              case LateSnapshot(b) => inflight == old(inflight) + [Checkpoint(dest, b, false)]
              case Land(i, saved) => checkpoint == if saved then Some(old(inflight)[i]) else old(checkpoint)
              case _ => checkpoint == old(checkpoint)
    {
      hide RunTo;
      RunGoesOn(dest, remote, s, begun, t0, e);
      t := Next(dest, remote, t0, e);
      match e {
        case Snapshot => inflight := inflight + [Checkpoint(dest, counted.value, false)];
        case LateSnapshot(b) =>
          inflight, stale := inflight + [Checkpoint(dest, b, false)], stale - multiset{b};
        case Land(i, saved) =>
          if saved {
            checkpoint := Some(inflight[i]);
          }
          inflight := inflight[..i] + inflight[i + 1..];
        case Retire(b) => stale := stale - multiset{b};
      }
    }

    /** One read and write: k of the n bytes read reach the file and are then counted. */
    method CopyPiece(dest: string, ghost remote: Bytes, ghost s: State, ghost begun: Event, ghost t0: State,
                     rest: Bytes, n: nat, k: nat, counted: nat, between: seq<Event>)
      returns (ghost t: State)
      requires file.Some? && 0 < n <= |rest| && k <= n && Running(dest, remote, s, begun, t0)
      requires t0.phase.Copying? && t0.phase.counted == counted
      requires t0.phase.rest == rest && t0.phase.uncounted == 0 && !t0.phase.failed
      modifies this
      ensures file == Some(old(file).value + rest[..k])
      ensures Running(dest, remote, s, begun, t)
      ensures t.phase == t0.phase.(rest := rest[n..], counted := counted + k, failed := k < n)
    {
      hide RunTo, TickersLead, Honest;
      file := Some(file.value + rest[..k]);
      RunGoesOn(dest, remote, s, begun, t0, Write(n, k));
      t := TickersRun(dest, remote, s, begun, Next(dest, remote, t0, Write(n, k)), Some(counted), between);
      if k > 0 {
        RunGoesOn(dest, remote, s, begun, t, Count);
        t := Next(dest, remote, t, Count);
      }
    }
  }

  lemma FinishedRun(dest: string, remote: Bytes, s: State, begun: Event, t: State)
    requires s.phase.Idle? && RunTo(dest, remote, s, begun, t) && begun.Start? && t.phase.Finished?
    ensures t.file == Some(
      if Resumes(dest, s, begun.appendOpens) then
        ResultOf(remote, s.file.value, s.checkpoint.value.bytes, t.phase.status)
      else remote)
  {
    var es :| OneRun(dest, remote, s, es, t) && es[0] == begun;
    if Resumes(dest, s, begun.appendOpens) {
      ResumedRunResult(dest, remote, s, es, t);
    } else {
      FreshRunResult(dest, remote, s, es, t);
    }
  }
}
