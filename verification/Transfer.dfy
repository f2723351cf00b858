/**
 One artifact transfer of the download manager: resuming a partial file by HTTP
 range, writing the body under the byte cap, verifying and renaming into place.

 A crash can end an attempt after any byte, and a restart that is still reconciling
 can discard the partial file at any moment of it. The reply, the stream's bytes,
 the disk's failures and those moments are inputs; `B` is the type of a byte.
 */
module Transfer {
  import opened Wrappers

  /** How the body's stream ends: cleanly, with an error, or with the daemon's death. */
  datatype Ending = Eof | Broken | Crash

  /** `start` is where Content-Range begins; `length` is Content-Length, or -1 when unknown. */
  datatype Reply<B> =
    | NoReply
    | Reply(status: int, start: Option<nat>, length: int, chunks: seq<seq<B>>, ending: Ending)

  /**
   When a partial file can be discarded under an attempt: after its size was read and
   before it is opened, after it was opened, or after it was checked.
   */
  datatype Moment = BeforeOpen | AfterOpen | BeforeRename

  /** One attempt: the reply, the discards that hit it, and which of the disk operations succeed. */
  datatype Attempt<B> = Attempt(reply: Reply<B>, losses: set<Moment>, opens: bool, synced: bool, hashed: bool,
                                recorded: bool, renamed: bool, dirSynced: bool)

  /** What the plan knows of an artifact: its size when positive, and its digest, if any, as a check of the bytes. */
  datatype Item<!B> = Item(size: int, digest: Option<seq<B> -> bool>, force: bool) {
    predicate Verifies(content: seq<B>) { digest.Some? ==> digest.value(content) }
  }

  datatype Disk<B> = Disk(part: Option<seq<B>>, target: Option<seq<B>>)

  datatype Outcome = Done | Failed | Crashed

  function Flat<B>(chunks: seq<seq<B>>, n: nat): seq<B>
    requires n <= |chunks|
  {
    if n == 0 then [] else Flat(chunks, n - 1) + chunks[n - 1]
  }

  function Min(a: int, b: int): int { if a <= b then a else b }

  /** The bytes a LimitReader lets through. */
  function Limited<B>(body: seq<B>, limit: int): seq<B> {
    if limit <= 0 then [] else body[..Min(limit, |body|)]
  }

  function Content<B>(file: Option<seq<B>>): seq<B> {
    if file.Some? then file.value else []
  }

  // ------------------------------------------------------------------
  // The attempt as a function
  // ------------------------------------------------------------------

  datatype State<B> = State(disk: Disk<B>, received: int)

  /** The offset an attempt asks the server to continue from. */
  function Asked<B>(s: State<B>): nat { |Content(s.disk.part)| }

  /** The partial file, discarded or not. */
  function Lose<B>(s: State<B>, lost: bool): State<B> {
    if lost then s.(disk := s.disk.(part := None)) else s
  }

  /** The reply continues the file at the offset asked for. */
  predicate Resumes<B>(reply: Reply<B>, asked: nat) {
    reply.Reply? && asked > 0 && reply.status == 206 && reply.start == Some(asked)
  }

  /** Where the transfer continues, when the status allows it to. */
  function ResumeOffset<B>(reply: Reply<B>, asked: nat): Result<nat>
    requires reply.Reply?
  {
    if Resumes(reply, asked) then Ok(asked) else if 200 <= reply.status < 300 then Ok(0) else Err
  }

  /** What the copy takes from the body: up to one byte past the cap. */
  function Delivered<B>(reply: Reply<B>, offset: nat, max: int): seq<B>
    requires reply.Reply?
  {
    Limited(Flat(reply.chunks, |reply.chunks|), max - offset + 1)
  }

  /** The body written at `offset`: appended, to a new file if there is none, or to a file cut back to nothing. */
  function Written<B>(s: State<B>, reply: Reply<B>, offset: nat, max: int): State<B>
    requires reply.Reply?
  {
    var bytes := Delivered(reply, offset, max);
    State(s.disk.(part := Some((if offset > 0 then Content(s.disk.part) else []) + bytes)), s.received + |bytes|)
  }

  /** An error past the limit is never read, so the copy ends cleanly. */
  predicate CopyFails<B>(reply: Reply<B>, limit: int)
    requires reply.Reply?
  {
    reply.ending == Broken && |Flat(reply.chunks, |reply.chunks|)| < limit
  }

  /** One attempt on a single-file plan: the size is read, and the reply to that offset received. */
  function Execute<B>(s: State<B>, item: Item<B>, a: Attempt<B>, max: int): (State<B>, Outcome) {
    Receive(Lose(s, BeforeOpen in a.losses), Asked(s), item, a, max)
  }

  predicate Opens<B>(a: Attempt<B>, offset: nat, max: int)
    requires a.reply.Reply?
  {
    (a.reply.length > 0 ==> offset + a.reply.length <= max) && a.opens
  }

  /**
   The reply to a request for `asked`. The checks after the copy count what was
   resumed and what was written, not what the file holds. A crash after the copy
   leaves the disk as one of the failures leaves it.
   */
  function Receive<B>(s: State<B>, asked: nat, item: Item<B>, a: Attempt<B>, max: int): (State<B>, Outcome) {
    if a.reply.NoReply? then (s, Failed)
    else
      match ResumeOffset(a.reply, asked)
      case Err => (s, Failed)
      case Ok(offset) =>
        var resumed := s.(received := s.received + offset);
        if !Opens(a, offset, max) then (resumed, Failed)
        else
          var written := Lose(Written(resumed, a.reply, offset, max), AfterOpen in a.losses);
          var total := offset + |Delivered(a.reply, offset, max)|;
          if a.reply.ending == Crash then (written, Crashed)
          else if CopyFails(a.reply, max - offset + 1) || total > max || !a.synced then (written, Failed)
          else Finish(written, total, item, a)
  }

  /** The checks on a copied file. One that is gone cannot be hashed. */
  function Finish<B>(s: State<B>, total: nat, item: Item<B>, a: Attempt<B>): (State<B>, Outcome) {
    if item.size > 0 && total != item.size then (s, Failed)
    else if item.digest.Some? && (!a.hashed || s.disk.part.None?) then (s, Failed)
    else if !item.Verifies(Content(s.disk.part)) then (Lose(s, true), Failed)
    else if item.digest.Some? && !a.recorded then (s, Failed)
    else Rename(Lose(if item.force then s.(disk := s.disk.(target := None)) else s, BeforeRename in a.losses), a)
  }

  function Rename<B>(s: State<B>, a: Attempt<B>): (State<B>, Outcome) {
    if !a.renamed || s.disk.part.None? then (s, Failed)
    else (s.(disk := Disk(None, s.disk.part)), if a.dirSynced then Done else Failed)
  }

  // ------------------------------------------------------------------
  // The attempt as the source runs it
  // ------------------------------------------------------------------

  class Download<B(==)> {
    var part: Option<seq<B>>
    var target: Option<seq<B>>
    var received: int

    constructor (disk: Disk<B>)
      ensures Now() == State(disk, 0)
    {
      part, target, received := disk.part, disk.target, 0;
    }

    ghost function Now(): State<B>
      reads this
    {
      State(Disk(part, target), received)
    }

    /** The copy, chunk by chunk; every chunk reaches the file and the progress count together. */
    method Copy(chunks: seq<seq<B>>, limit: int) returns (reached: bool)
      requires part.Some?
      modifies this`part, this`received
      ensures var bytes := Limited(Flat(chunks, |chunks|), limit);
              part == Some(old(part).value + bytes) && received == old(received) + |bytes|
      ensures reached <==> |Flat(chunks, |chunks|)| >= limit
    {
      ghost var done := [];
      assert part.value + done == part.value;
      var remaining, n := limit, 0;
      while n < |chunks| && remaining > 0
        invariant n <= |chunks| && done == Limited(Flat(chunks, n), limit)
        invariant part == Some(old(part).value + done) && received == old(received) + |done|
        invariant remaining == limit - |done|
      {
        var chunk := chunks[n];
        var bytes := chunk[..Min(remaining, |chunk|)];
        LimitedGrows(Flat(chunks, n), chunk, limit);
        assert old(part).value + (done + bytes) == (old(part).value + done) + bytes;
        done := done + bytes;
        part := Some(part.value + bytes);
        received := received + |bytes|;
        remaining := remaining - |bytes|;
        n := n + 1;
      }
      LimitReached(chunks, n, limit);
      FlatGrows(chunks, n, |chunks|);
      reached := remaining <= 0;
    }

    /** Opens the file, cut back unless the transfer resumes, and copies up to one byte past the cap. */
    method WriteBody(reply: Reply<B>, offset: nat, max: int) returns (written: nat, copied: bool)
      requires reply.Reply?
      modifies this
      ensures Now() == Written(old(Now()), reply, offset, max) && part.Some?
      ensures written == |Delivered(reply, offset, max)|
      ensures copied <==> !CopyFails(reply, max - offset + 1)
    {
      if offset == 0 || part.None? {
        part := Some([]);
      }
      var before := received;
      var reached := Copy(reply.chunks, max - offset + 1);
      written := received - before;
      copied := reply.ending != Broken || reached;
    }

    /** The file as another goroutine may leave it. */
    method DiscardIf(lost: bool)
      modifies this`part
      ensures Now() == Lose(old(Now()), lost)
    {
      if lost {
        part := None;
      }
    }

    method ExecuteFile(item: Item<B>, a: Attempt<B>, max: int) returns (outcome: Outcome)
      modifies this
      ensures (Now(), outcome) == Execute(old(Now()), item, a, max)
    {
      var asked := if part.Some? then |part.value| else 0;
      DiscardIf(BeforeOpen in a.losses);
      outcome := ReceiveFile(asked, item, a, max);
    }

    method ReceiveFile(asked: nat, item: Item<B>, a: Attempt<B>, max: int) returns (outcome: Outcome)
      modifies this
      ensures (Now(), outcome) == Receive(old(Now()), asked, item, a, max)
    {
      if a.reply.NoReply? {
        return Failed;
      }
      var at := ResumeOffset(a.reply, asked);
      if at.Err? {
        return Failed;
      }
      var offset := at.value;
      received := received + offset;
      if (a.reply.length > 0 && offset + a.reply.length > max) || !a.opens {
        return Failed;
      }
      var written, copied := WriteBody(a.reply, offset, max);
      DiscardIf(AfterOpen in a.losses);
      if a.reply.ending == Crash {
        return Crashed;
      }
      if !copied || offset + written > max || !a.synced {
        return Failed;
      }
      outcome := FinishFile(offset + written, item, a);
    }

    method FinishFile(total: nat, item: Item<B>, a: Attempt<B>) returns (outcome: Outcome)
      modifies this
      ensures (Now(), outcome) == Finish(old(Now()), total, item, a)
    {
      if item.size > 0 && total != item.size {
        return Failed;
      }
      if item.digest.Some? {
        if !a.hashed || part.None? {
          return Failed;
        }
        if !item.digest.value(part.value) {
          part := None;
          return Failed;
        }
        if !a.recorded {
          return Failed;
        }
      }
      if item.force {
        target := None;
      }
      DiscardIf(BeforeRename in a.losses);
      if !a.renamed || part.None? {
        return Failed;
      }
      part, target := None, part;
      outcome := if a.dirSynced then Done else Failed;
    }
  }

  lemma LimitedGrows<B>(body: seq<B>, chunk: seq<B>, limit: int)
    requires limit > |Limited(body, limit)|
    ensures Limited(body + chunk, limit) ==
            Limited(body, limit) + chunk[..Min(limit - |Limited(body, limit)|, |chunk|)]
  {
  }

  lemma {:induction false} FlatGrows<B>(chunks: seq<seq<B>>, n: nat, m: nat)
    requires n <= m <= |chunks|
    ensures Flat(chunks, n) <= Flat(chunks, m)
    decreases m
  {
    if n < m {
      FlatGrows(chunks, n, m - 1);
    }
  }

  /** A copy that stopped at the limit has all the limit lets through. */
  lemma LimitReached<B>(chunks: seq<seq<B>>, n: nat, limit: int)
    requires n <= |chunks| && (n == |chunks| || |Flat(chunks, n)| >= limit)
    ensures Limited(Flat(chunks, n), limit) == Limited(Flat(chunks, |chunks|), limit)
  {
    FlatGrows(chunks, n, |chunks|);
  }

  // ------------------------------------------------------------------
  // What a failure leaves
  // ------------------------------------------------------------------

  /** The counts fit, and the digest was taken of the file and is not the plan's. */
  predicate Rejects<B>(total: nat, content: seq<B>, item: Item<B>, a: Attempt<B>) {
    (item.size > 0 ==> item.size == total) && a.hashed && !item.Verifies(content)
  }

  /** Everything but the rename went well, and the target was removed by force for it. */
  predicate Clears<B>(total: nat, content: seq<B>, item: Item<B>, a: Attempt<B>) {
    && item.force && (item.size > 0 ==> item.size == total) && item.Verifies(content)
    && (item.digest.Some? ==> a.hashed && a.recorded)
  }

  /** The partial file survives every failed check but a wrong digest, and the target every one but a failing rename by force. */
  lemma FailedCheckLeaves<B>(s: State<B>, total: nat, item: Item<B>, a: Attempt<B>)
    requires s.disk.part.Some? && a.losses == {} && !Passes(total, s.disk.part.value, item, a)
    ensures var content := s.disk.part.value;
            Finish(s, total, item, a) ==
            (s.(disk := Disk(if Rejects(total, content, item, a) then None else s.disk.part,
                             if Clears(total, content, item, a) then None else s.disk.target)), Failed)
  {
  }

  /** An attempt without a discard that is stopped after it was opened keeps every byte it wrote. */
  lemma AStoppedAttemptKeepsItsBytes<B>(s: State<B>, item: Item<B>, a: Attempt<B>, max: int)
    requires a.losses == {} && Writes(s, a, max)
    requires var offset := Continues(s, a.reply); Stops(a, max, offset, offset + |Delivered(a.reply, offset, max)|)
    ensures var offset := Continues(s, a.reply);
            Execute(s, item, a, max).0.disk == Disk(Some((if offset > 0 then Content(s.disk.part) else []) + Delivered(a.reply, offset, max)),
                                                    s.disk.target)
  {
  }

  /** One that never opened the file leaves the disk alone. */
  lemma ARefusedAttemptLeavesTheDisk<B>(s: State<B>, item: Item<B>, a: Attempt<B>, max: int)
    requires a.losses == {} && !Writes(s, a, max)
    ensures Execute(s, item, a, max).0.disk == s.disk && Execute(s, item, a, max).1 == Failed
  {
  }

  // ------------------------------------------------------------------
  // A range that was not asked for
  // ------------------------------------------------------------------

  /** A partial reply that begins at `j`, though the attempt asked for another offset, and brings what the artifact has from there. */
  ghost predicate Misplaced<B>(s: State<B>, reply: Reply<B>, j: nat, artifact: seq<B>) {
    && reply.Reply? && reply.status == 206 && reply.start == Some(j) && j != Asked(s) && j <= |artifact|
    && Serves(reply, artifact[j..])
  }

  /**
   Such a reply does not resume: the file is started over, and what arrives is taken
   for the beginning. It lands as the target exactly if the plan's size and digest,
   where it has them, do not tell it from the artifact.
   */
  lemma AMisplacedRangeLandsIff<B>(s: State<B>, item: Item<B>, a: Attempt<B>, max: int, j: nat, artifact: seq<B>)
    requires Misplaced(s, a.reply, j, artifact) && a.losses == {}
    ensures var after, rest := Execute(s, item, a, max), artifact[j..];
            if a.reply.ending == Eof && |rest| <= max && a.opens && a.synced && Passes(|rest|, rest, item, a)
            then after == (State(Disk(None, Some(rest)), s.received + |rest|), if a.dirSynced then Done else Failed)
            else after.1 != Done && (after.0.disk.target == s.disk.target || (after.0.disk.target == None && item.force))
  {
    var rest := artifact[j..];
    assert rest[0..] == rest;
    CopiedIff(a, max, rest, 0);
    ExecuteStopsOrFinishes(s, item, a, max, 0);
    if !Stops(a, max, 0, |Delivered(a.reply, 0, max)|) {
      DeliveredIs(a.reply, 0, max, rest);
      assert [] + rest == rest;
      FinishLeaves(s, |rest|, rest, item, a);
    }
  }

  /** It is never appended to what was there. */
  lemma AMisplacedRangeStartsOver<B>(s: State<B>, item: Item<B>, a: Attempt<B>, max: int, j: nat, artifact: seq<B>)
    requires Misplaced(s, a.reply, j, artifact) && a.losses == {} && a.reply.ending == Crash && Opens(a, 0, max)
    ensures Execute(s, item, a, max).0.disk.part == Some(Delivered(a.reply, 0, max)) && Delivered(a.reply, 0, max) <= artifact[j..]
  {
    assert artifact[j..][0..] == artifact[j..];
    DeliveredIs(a.reply, 0, max, artifact[j..]);
    assert [] + Delivered(a.reply, 0, max) == Delivered(a.reply, 0, max);
  }

  // ------------------------------------------------------------------
  // The cap, whatever the server sends
  // ------------------------------------------------------------------

  /** Where an accepted reply continues. */
  function Continues<B>(s: State<B>, reply: Reply<B>): nat { if Resumes(reply, Asked(s)) then Asked(s) else 0 }

  /** The reply says that it is longer than the cap allows. */
  predicate TooLong<B>(s: State<B>, reply: Reply<B>, max: int) {
    reply.Reply? && reply.length > 0 && Continues(s, reply) + reply.length > max
  }

  /** A reply that announces too much is refused before the file is opened: only what was resumed is counted. */
  lemma TooLongIsRefused<B>(s: State<B>, item: Item<B>, a: Attempt<B>, max: int)
    requires TooLong(s, a.reply, max) && 200 <= a.reply.status < 300
    ensures Execute(s, item, a, max) ==
            (State(Disk(if BeforeOpen in a.losses then None else s.disk.part, s.disk.target), s.received + Continues(s, a.reply)), Failed)
  {
  }

  /** An attempt counts what it resumed once the reply is accepted, and what it wrote once the file is opened. */
  lemma AttemptCounts<B>(s: State<B>, item: Item<B>, a: Attempt<B>, max: int)
    ensures var after, accepted := Execute(s, item, a, max).0, a.reply.Reply? && 200 <= a.reply.status < 300;
            after.received == s.received +
            if !accepted then 0
            else if TooLong(s, a.reply, max) || !a.opens then Continues(s, a.reply)
            else Continues(s, a.reply) + |Delivered(a.reply, Continues(s, a.reply), max)|
  {
    if Writes(s, a, max) {
      WritingLeaves(s, item, a, max);
    }
  }

  /** An attempt that opens the file leaves it written or lost, or goes on to the final checks, which count nothing. */
  lemma WritingLeaves<B>(s: State<B>, item: Item<B>, a: Attempt<B>, max: int)
    requires Writes(s, a, max)
    ensures var offset := Continues(s, a.reply);
            var written, total := Written(Opening(s, a, offset), a.reply, offset, max), offset + |Delivered(a.reply, offset, max)|;
            var after := Execute(s, item, a, max).0;
            && after.received == written.received
            && after.disk.part in {None, written.disk.part}
            && (after.disk.target == s.disk.target || after.disk.target == None || (after.disk.target == written.disk.part && total <= max))
  {
    var offset := Continues(s, a.reply);
    var written := Lose(Written(Opening(s, a, offset), a.reply, offset, max), AfterOpen in a.losses);
    FinishChanges(written, offset + |Delivered(a.reply, offset, max)|, item, a);
  }

  lemma FinishChanges<B>(s: State<B>, total: nat, item: Item<B>, a: Attempt<B>)
    ensures var after := Finish(s, total, item, a).0;
            && after.received == s.received && after.disk.part in {None, s.disk.part}
            && (after.disk.target in {s.disk.target, None} || after.disk.target == s.disk.part)
  {
  }

  /** No file is more than one byte over the cap. */
  predicate Capped<B>(file: Option<seq<B>>, max: nat) { |Content(file)| <= max + 1 }

  /** What is written stays within one byte of the cap, and within what is counted. */
  lemma WrittenIsCapped<B>(s: State<B>, a: Attempt<B>, max: nat)
    requires a.reply.Reply? && Capped(s.disk.part, max)
    ensures var offset := Continues(s, a.reply);
            var written, total := Written(Opening(s, a, offset), a.reply, offset, max), offset + |Delivered(a.reply, offset, max)|;
            |Content(written.disk.part)| <= total <= max + 1
  {
  }

  /** Against any server the partial file stays within one byte of the cap, and what lands is within the cap. */
  lemma AttemptIsCapped<B>(s: State<B>, item: Item<B>, a: Attempt<B>, max: nat)
    requires Capped(s.disk.part, max)
    ensures var after := Execute(s, item, a, max).0.disk;
            && Capped(after.part, max)
            && (after.target == s.disk.target || |Content(after.target)| <= max)
  {
    if Writes(s, a, max) {
      WrittenIsCapped(s, a, max);
      WritingLeaves(s, item, a, max);
    }
  }

  // ------------------------------------------------------------------
  // What one attempt leaves
  // ------------------------------------------------------------------

  /** The server serves `artifact`: whole, or from the requested offset on, as far as the stream gets. */
  ghost predicate Honest<B>(reply: Reply<B>, artifact: seq<B>, asked: nat) {
    reply.Reply? && 200 <= reply.status < 300 ==>
      && (reply.status == 206 ==> 0 < asked <= |artifact| && reply.start == Some(asked))
      && Serves(reply, if reply.status == 206 then artifact[asked..] else artifact)
  }

  ghost predicate Serves<B>(reply: Reply<B>, body: seq<B>)
    requires reply.Reply?
  {
    && Flat(reply.chunks, |reply.chunks|) <= body
    && (reply.ending == Eof ==> Flat(reply.chunks, |reply.chunks|) == body)
    && (reply.length > 0 ==> reply.length == |body|)
  }

  /** The attempt resumes a file that a discard takes away before it is opened. */
  predicate Hurt<B>(s: State<B>, a: Attempt<B>) {
    BeforeOpen in a.losses && Resumes(a.reply, Asked(s))
  }

  /** The bytes a reply is written after. */
  function Base<B>(s: State<B>, a: Attempt<B>): seq<B> {
    if Resumes(a.reply, Asked(s)) && BeforeOpen !in a.losses then Content(s.disk.part) else []
  }

  function Rest<B>(artifact: seq<B>, k: nat): seq<B> { if k <= |artifact| then artifact[k..] else [] }

  /** What a complete transfer puts together: what was there, unless a discard took it, and what follows the offset that was asked for. */
  function Fetched<B>(s: State<B>, a: Attempt<B>, artifact: seq<B>): seq<B> {
    Base(s, a) + Rest(artifact, if Resumes(a.reply, Asked(s)) then Asked(s) else 0)
  }

  /** The attempt resumes a file that is gone by then, or that is no beginning of the artifact. */
  ghost predicate Spoiled<B>(s: State<B>, a: Attempt<B>, artifact: seq<B>) {
    Resumes(a.reply, Asked(s)) && (BeforeOpen in a.losses || !(Content(s.disk.part) <= artifact))
  }

  /** Anything else puts the artifact together. */
  lemma FetchedIsTheArtifactIff<B>(s: State<B>, a: Attempt<B>, artifact: seq<B>)
    requires Honest(a.reply, artifact, Asked(s))
    ensures Fetched(s, a, artifact) == artifact <==> !Spoiled(s, a, artifact)
  {
    assert artifact[0..] == artifact && [] + artifact == artifact;
    if Resumes(a.reply, Asked(s)) {
      assert Fetched(s, a, artifact)[..|Base(s, a)|] == Base(s, a);
    }
  }

  /** The bytes of an honest body are the artifact's at the offset; a clean end within the cap brings all of them. */
  lemma DeliveredIs<B>(reply: Reply<B>, offset: nat, max: int, artifact: seq<B>)
    requires reply.Reply? && offset <= |artifact| && Serves(reply, artifact[offset..])
    ensures var bytes := Delivered(reply, offset, max);
            && bytes <= artifact[offset..] && offset + |bytes| <= |artifact|
            && (reply.ending == Eof && offset + |bytes| <= max <==> reply.ending == Eof && |artifact| <= max)
            && (reply.ending == Eof && |artifact| <= max ==> bytes == artifact[offset..])
            && (!CopyFails(reply, max - offset + 1) && reply.ending == Broken ==> offset + |bytes| > max)
            && (reply.length > 0 ==> offset + reply.length == |artifact|)
  {
  }

  /** An accepted reply continues after the bytes asked about, or starts over. */
  lemma ResumesWhereThePartEnds<B>(s: State<B>, reply: Reply<B>, artifact: seq<B>)
    requires reply.Reply? && Honest(reply, artifact, Asked(s)) && ResumeOffset(reply, Asked(s)).Ok?
    ensures var offset := ResumeOffset(reply, Asked(s)).value;
            && offset <= |artifact| && Serves(reply, artifact[offset..])
            && (offset > 0 <==> Resumes(reply, Asked(s))) && (offset > 0 ==> offset == Asked(s))
  {
    assert artifact[0..] == artifact;
  }

  /** The state in which the file is opened. */
  function Opening<B>(s: State<B>, a: Attempt<B>, offset: nat): State<B> {
    var lost := Lose(s, BeforeOpen in a.losses);
    lost.(received := lost.received + offset)
  }

  /** The file when the copy ends. */
  function Copied<B>(s: State<B>, a: Attempt<B>, offset: nat, max: int): seq<B>
    requires a.reply.Reply?
  {
    Content(Written(Opening(s, a, offset), a.reply, offset, max).disk.part)
  }

  /** The copy is what was there and the artifact's bytes at the offset. */
  lemma CopyExtends<B>(s: State<B>, a: Attempt<B>, artifact: seq<B>, offset: nat, max: int)
    requires Honest(a.reply, artifact, Asked(s)) && a.reply.Reply? && ResumeOffset(a.reply, Asked(s)) == Ok(offset)
    ensures var end := offset + |Delivered(a.reply, offset, max)|;
            && offset <= end <= |artifact|
            && Copied(s, a, offset, max) == Base(s, a) + artifact[offset..end]
  {
    ResumesWhereThePartEnds(s, a.reply, artifact);
    DeliveredIs(a.reply, offset, max, artifact);
    assert Delivered(a.reply, offset, max) == artifact[offset..offset + |Delivered(a.reply, offset, max)|];
  }

  lemma PrefixGrows<B>(artifact: seq<B>, from: nat, to: nat)
    requires from <= to <= |artifact|
    ensures artifact[..from] + artifact[from..to] == artifact[0..to]
    ensures [] + artifact[from..to] == artifact[from..to]
  {
  }

  /** On a prefix, a hurt attempt leaves the bytes from the offset on and nothing before them; any other extends it. */
  lemma CopyLeaves<B>(s: State<B>, a: Attempt<B>, artifact: seq<B>, offset: nat, max: int)
    requires Content(s.disk.part) <= artifact && Honest(a.reply, artifact, Asked(s))
    requires a.reply.Reply? && ResumeOffset(a.reply, Asked(s)) == Ok(offset)
    ensures var end := offset + |Delivered(a.reply, offset, max)|;
            && offset <= end <= |artifact|
            && Copied(s, a, offset, max) == artifact[if Hurt(s, a) then offset else 0..end]
  {
    CopyExtends(s, a, artifact, offset, max);
    ResumesWhereThePartEnds(s, a.reply, artifact);
    var end := offset + |Delivered(a.reply, offset, max)|;
    PrefixGrows(artifact, offset, end);
    assert Base(s, a) == if Hurt(s, a) then [] else artifact[..offset];
  }

  /** A hurt attempt whose bytes are no beginning of the artifact. */
  ghost predicate Torn<B>(s: State<B>, a: Attempt<B>, max: int, artifact: seq<B>) {
    && Hurt(s, a) && Opens(a, Asked(s), max)
    && var end := Asked(s) + |Delivered(a.reply, Asked(s), max)|;
       end <= |artifact| && !(artifact[Asked(s)..end] <= artifact)
  }

  /** The attempt gets as far as writing. */
  predicate Writes<B>(s: State<B>, a: Attempt<B>, max: int) {
    a.reply.Reply? && ResumeOffset(a.reply, Asked(s)).Ok? && Opens(a, ResumeOffset(a.reply, Asked(s)).value, max)
  }

  /** Every byte written keeps the file a prefix of the artifact exactly if the attempt does not tear it. */
  lemma CopyKeepsPrefixIff<B>(s: State<B>, a: Attempt<B>, max: int, artifact: seq<B>)
    requires Content(s.disk.part) <= artifact && Honest(a.reply, artifact, Asked(s)) && Writes(s, a, max)
    ensures Copied(s, a, ResumeOffset(a.reply, Asked(s)).value, max) <= artifact <==> !Torn(s, a, max, artifact)
  {
    CopyLeaves(s, a, artifact, ResumeOffset(a.reply, Asked(s)).value, max);
  }

  /** What stops an attempt between the reply and the final checks. */
  predicate Stops<B>(a: Attempt<B>, max: int, offset: nat, total: int)
    requires a.reply.Reply?
  {
    || !Opens(a, offset, max)
    || a.reply.ending == Crash || CopyFails(a.reply, max - offset + 1) || total > max || !a.synced
  }

  lemma ExecuteStopsOrFinishes<B>(s: State<B>, item: Item<B>, a: Attempt<B>, max: int, offset: nat)
    requires a.reply.Reply? && ResumeOffset(a.reply, Asked(s)) == Ok(offset)
    ensures var written := Lose(Written(Opening(s, a, offset), a.reply, offset, max), AfterOpen in a.losses);
            var total := offset + |Delivered(a.reply, offset, max)|;
            if Stops(a, max, offset, total)
            then Execute(s, item, a, max).1 != Done &&
                 Execute(s, item, a, max).0.disk == (if Opens(a, offset, max) then written else Opening(s, a, offset)).disk
            else Execute(s, item, a, max) == Finish(written, total, item, a)
  {
  }

  /** Exactly the attempts that got everything the reply promised come to the final checks, and they count the whole artifact. */
  lemma CopiedIff<B>(a: Attempt<B>, max: int, artifact: seq<B>, offset: nat)
    requires a.reply.Reply? && offset <= |artifact| && Serves(a.reply, artifact[offset..])
    ensures var total := offset + |Delivered(a.reply, offset, max)|;
            && (!Stops(a, max, offset, total) <==> a.reply.ending == Eof && |artifact| <= max && a.opens && a.synced)
            && (!Stops(a, max, offset, total) ==> total == |artifact|)
  {
    DeliveredIs(a.reply, offset, max, artifact);
  }

  /** When the final checks pass and the file is put in place. */
  predicate Passes<B>(total: nat, content: seq<B>, item: Item<B>, a: Attempt<B>) {
    && (item.size > 0 ==> item.size == total) && item.Verifies(content)
    && (item.digest.Some? ==> a.hashed && a.recorded) && a.renamed
    && AfterOpen !in a.losses && BeforeRename !in a.losses
  }

  lemma FinishIff<B>(s: State<B>, total: nat, item: Item<B>, a: Attempt<B>)
    requires s.disk.part.Some? <==> AfterOpen !in a.losses
    ensures var content, after := Content(s.disk.part), Finish(s, total, item, a);
            if Passes(total, content, item, a)
            then after == (s.(disk := Disk(None, Some(content))), if a.dirSynced then Done else Failed)
            else
              && after.1 != Done && after.0.disk.part in {s.disk.part, None}
              && (after.0.disk.target == s.disk.target || (after.0.disk.target == None && item.force))
  {
  }

  /**
   When an attempt puts a file in place: all of the reply arrives, the counts fit the
   plan and the cap, no disk step fails, no discard hits it later, and the digest,
   if the plan has one, accepts what was put together.
   */
  ghost predicate Lands<B>(s: State<B>, item: Item<B>, a: Attempt<B>, max: int, artifact: seq<B>) {
    && a.reply.Reply? && 200 <= a.reply.status < 300 && a.reply.ending == Eof
    && |artifact| <= max && a.opens && a.synced && Passes(|artifact|, Fetched(s, a, artifact), item, a)
  }

  /** An attempt that does not land leaves the target alone, or removed by force, and the file gone, as before, or as copied. */
  ghost predicate Leaves<B>(s: State<B>, item: Item<B>, after: (State<B>, Outcome), copied: Option<seq<B>>) {
    && after.1 != Done
    && (after.0.disk.target == s.disk.target || (after.0.disk.target == None && item.force))
    && after.0.disk.part in {None, s.disk.part, copied}
  }

  /** What an attempt that lands leaves: what was fetched in place, and the artifact's length counted. */
  ghost function LandedAs<B>(s: State<B>, a: Attempt<B>, artifact: seq<B>): (State<B>, Outcome) {
    (State(Disk(None, Some(Fetched(s, a, artifact))), s.received + |artifact|), if a.dirSynced then Done else Failed)
  }

  /** The file as the copy left it, when the attempt got that far. */
  function CopiedIf<B>(s: State<B>, a: Attempt<B>, max: int): Option<seq<B>> {
    if Writes(s, a, max) then Some(Copied(s, a, ResumeOffset(a.reply, Asked(s)).value, max)) else None
  }

  /**
   What one attempt leaves. If it lands, exactly what was fetched is in place and
   exactly the artifact's length was counted, whatever the file then holds. If not, the target and the partial file are as `Leaves` says.
   */
  lemma AttemptLeaves<B>(s: State<B>, item: Item<B>, a: Attempt<B>, max: int, artifact: seq<B>)
    requires Honest(a.reply, artifact, Asked(s))
    ensures if Lands(s, item, a, max, artifact) then Execute(s, item, a, max) == LandedAs(s, a, artifact)
            else Leaves(s, item, Execute(s, item, a, max), CopiedIf(s, a, max))
  {
    if a.reply.Reply? && ResumeOffset(a.reply, Asked(s)).Ok? {
      var offset := ResumeOffset(a.reply, Asked(s)).value;
      ResumesWhereThePartEnds(s, a.reply, artifact);
      CopiedIff(a, max, artifact, offset);
      if Stops(a, max, offset, offset + |Delivered(a.reply, offset, max)|) {
        StopLeaves(s, item, a, max, offset);
      } else {
        ComesToTheChecks(s, item, a, max, artifact, offset);
        EndLeaves(s, item, a, artifact, Execute(s, item, a, max), CopiedIf(s, a, max));
      }
    }
  }

  lemma StopLeaves<B>(s: State<B>, item: Item<B>, a: Attempt<B>, max: int, offset: nat)
    requires a.reply.Reply? && ResumeOffset(a.reply, Asked(s)) == Ok(offset)
    requires Stops(a, max, offset, offset + |Delivered(a.reply, offset, max)|)
    ensures Leaves(s, item, Execute(s, item, a, max), CopiedIf(s, a, max))
  {
    ExecuteStopsOrFinishes(s, item, a, max, offset);
  }

  /** The attempt came to the final checks. */
  lemma EndLeaves<B>(s: State<B>, item: Item<B>, a: Attempt<B>, artifact: seq<B>, after: (State<B>, Outcome), copied: Option<seq<B>>)
    requires copied == Some(Fetched(s, a, artifact))
    requires var file := State(Disk(copied, s.disk.target), s.received + |artifact|);
             after == Finish(Lose(file, AfterOpen in a.losses), |artifact|, item, a)
    ensures if Passes(|artifact|, Fetched(s, a, artifact), item, a) then after == LandedAs(s, a, artifact)
            else Leaves(s, item, after, copied)
  {
    FinishLeaves(s, |artifact|, Fetched(s, a, artifact), item, a);
  }

  /** What the final checks find. */
  lemma ComesToTheChecks<B>(s: State<B>, item: Item<B>, a: Attempt<B>, max: int, artifact: seq<B>, offset: nat)
    requires Honest(a.reply, artifact, Asked(s)) && a.reply.Reply? && ResumeOffset(a.reply, Asked(s)) == Ok(offset)
    requires offset + |Delivered(a.reply, offset, max)| == |artifact| && !Stops(a, max, offset, |artifact|)
    ensures var file := State(Disk(Some(Fetched(s, a, artifact)), s.disk.target), s.received + |artifact|);
            Execute(s, item, a, max) == Finish(Lose(file, AfterOpen in a.losses), |artifact|, item, a)
    ensures CopiedIf(s, a, max) == Some(Fetched(s, a, artifact))
  {
    CopyIsFetched(s, a, max, artifact, offset);
    ExecuteStopsOrFinishes(s, item, a, max, offset);
  }

  /** The final checks on what was fetched. */
  lemma FinishLeaves<B>(s: State<B>, total: nat, fetched: seq<B>, item: Item<B>, a: Attempt<B>)
    ensures var after := Finish(Lose(State(Disk(Some(fetched), s.disk.target), s.received + total), AfterOpen in a.losses), total, item, a);
            if Passes(total, fetched, item, a)
            then after == (State(Disk(None, Some(fetched)), s.received + total), if a.dirSynced then Done else Failed)
            else Leaves(s, item, after, Some(fetched))
  {
    FinishIff(Lose(State(Disk(Some(fetched), s.disk.target), s.received + total), AfterOpen in a.losses), total, item, a);
  }

  lemma CopyIsFetched<B>(s: State<B>, a: Attempt<B>, max: int, artifact: seq<B>, offset: nat)
    requires Honest(a.reply, artifact, Asked(s)) && a.reply.Reply? && ResumeOffset(a.reply, Asked(s)) == Ok(offset)
    requires offset + |Delivered(a.reply, offset, max)| == |artifact|
    ensures Copied(s, a, offset, max) == Fetched(s, a, artifact)
    ensures Written(Opening(s, a, offset), a.reply, offset, max) ==
            State(Disk(Some(Fetched(s, a, artifact)), s.disk.target), s.received + |artifact|)
  {
    CopyExtends(s, a, artifact, offset, max);
    ResumesWhereThePartEnds(s, a.reply, artifact);
    assert artifact[offset..|artifact|] == Rest(artifact, offset);
  }

  /** The target of an attempt that lands is the artifact exactly if the attempt was not spoiled. */
  lemma LandsWholeIff<B>(s: State<B>, item: Item<B>, a: Attempt<B>, max: int, artifact: seq<B>)
    requires Honest(a.reply, artifact, Asked(s)) && Lands(s, item, a, max, artifact)
    ensures Execute(s, item, a, max).0.disk.target == Some(artifact) <==> !Spoiled(s, a, artifact)
  {
    AttemptLeaves(s, item, a, max, artifact);
    FetchedIsTheArtifactIff(s, a, artifact);
  }

  // ------------------------------------------------------------------
  // Any number of attempts
  // ------------------------------------------------------------------

  /** What happens to one target over time: an attempt, or a discard between two of them. */
  datatype Episode<B> = Try(attempt: Attempt<B>) | Discard

  function Happens<B>(disk: Disk<B>, item: Item<B>, e: Episode<B>, max: int): Disk<B> {
    match e
    case Try(a) => Execute(State(disk, 0), item, a, max).0.disk
    case Discard => disk.(part := None)
  }

  /** The disk after the first `n` episodes; each attempt starts a new count of received bytes. */
  ghost function After<B>(disk: Disk<B>, item: Item<B>, episodes: seq<Episode<B>>, max: int, n: nat): Disk<B>
    requires n <= |episodes|
  {
    if n == 0 then disk else Happens(After(disk, item, episodes, max, n - 1), item, episodes[n - 1], max)
  }

  /** Over any history, honest or not, the partial file stays within one byte of the cap and every target that lands within it. */
  lemma {:induction false} EveryFileIsCapped<B>(disk: Disk<B>, item: Item<B>, episodes: seq<Episode<B>>, max: nat, n: nat)
    requires n <= |episodes| && Capped(disk.part, max)
    ensures var after := After(disk, item, episodes, max, n);
            Capped(after.part, max) && (after.target == disk.target || |Content(after.target)| <= max)
    decreases n
  {
    if n > 0 {
      EveryFileIsCapped(disk, item, episodes, max, n - 1);
      if episodes[n - 1].Try? {
        AttemptIsCapped(State(After(disk, item, episodes, max, n - 1), 0), item, episodes[n - 1].attempt, max);
      }
    }
  }

  ghost predicate HonestIn<B>(disk: Disk<B>, e: Episode<B>, artifact: seq<B>) {
    e.Try? ==> Honest(e.attempt.reply, artifact, |Content(disk.part)|)
  }

  /** The server was honest in each of the first `n` episodes. */
  ghost predicate HonestUpTo<B>(disk: Disk<B>, item: Item<B>, episodes: seq<Episode<B>>, max: int, artifact: seq<B>, n: nat)
    requires n <= |episodes|
  {
    n > 0 ==>
      && HonestUpTo(disk, item, episodes, max, artifact, n - 1)
      && HonestIn(After(disk, item, episodes, max, n - 1), episodes[n - 1], artifact)
  }

  ghost predicate TornIn<B>(disk: Disk<B>, e: Episode<B>, max: int, artifact: seq<B>) {
    e.Try? && Torn(State(disk, 0), e.attempt, max, artifact)
  }

  /** None of the first `n` episodes tears the partial file. */
  ghost predicate UntornUpTo<B>(disk: Disk<B>, item: Item<B>, episodes: seq<Episode<B>>, max: int, artifact: seq<B>, n: nat)
    requires n <= |episodes|
  {
    n > 0 ==>
      && UntornUpTo(disk, item, episodes, max, artifact, n - 1)
      && !TornIn(After(disk, item, episodes, max, n - 1), episodes[n - 1], max, artifact)
  }

  /** The partial file is a prefix when the copy of an attempt ends, and when its episode does. */
  ghost predicate PrefixIn<B>(disk: Disk<B>, item: Item<B>, e: Episode<B>, max: int, artifact: seq<B>) {
    && (e.Try? ==> Content(CopiedIf(State(disk, 0), e.attempt, max)) <= artifact)
    && Content(Happens(disk, item, e, max).part) <= artifact
  }

  ghost predicate PrefixUpTo<B>(disk: Disk<B>, item: Item<B>, episodes: seq<Episode<B>>, max: int, artifact: seq<B>, n: nat)
    requires n <= |episodes|
  {
    n > 0 ==>
      && PrefixUpTo(disk, item, episodes, max, artifact, n - 1)
      && PrefixIn(After(disk, item, episodes, max, n - 1), item, episodes[n - 1], max, artifact)
  }

  lemma EpisodeIsPrefixIff<B>(disk: Disk<B>, item: Item<B>, e: Episode<B>, max: int, artifact: seq<B>)
    requires Content(disk.part) <= artifact && HonestIn(disk, e, artifact)
    ensures PrefixIn(disk, item, e, max, artifact) <==> !TornIn(disk, e, max, artifact)
  {
    if e.Try? {
      var s, a := State(disk, 0), e.attempt;
      AttemptLeaves(s, item, a, max, artifact);
      if Writes(s, a, max) {
        CopyKeepsPrefixIff(s, a, max, artifact);
      } else {
        assert !Torn(s, a, max, artifact);
      }
    }
  }

  /**
   Across failures, crashes, resumes, restarts from zero and discards, the partial
   file is a prefix of the artifact throughout if and only if no discard falls between
   the size and the open of an attempt that resumes, with bytes that tear it.
   */
  lemma {:induction false} PrefixThroughoutIff<B>(disk: Disk<B>, item: Item<B>, episodes: seq<Episode<B>>, max: int,
                                                  artifact: seq<B>, n: nat)
    requires Content(disk.part) <= artifact && n <= |episodes|
    requires HonestUpTo(disk, item, episodes, max, artifact, n)
    ensures PrefixUpTo(disk, item, episodes, max, artifact, n) <==> UntornUpTo(disk, item, episodes, max, artifact, n)
    ensures UntornUpTo(disk, item, episodes, max, artifact, n) ==> Content(After(disk, item, episodes, max, n).part) <= artifact
    decreases n
  {
    if n > 0 {
      PrefixThroughoutIff(disk, item, episodes, max, artifact, n - 1);
      if UntornUpTo(disk, item, episodes, max, artifact, n - 1) {
        EpisodeIsPrefixIff(After(disk, item, episodes, max, n - 1), item, episodes[n - 1], max, artifact);
      }
    }
  }

  /** The episode puts a file in place that it resumed where it was gone or no beginning of the artifact. */
  ghost predicate LandsSpoiled<B>(disk: Disk<B>, item: Item<B>, e: Episode<B>, max: int, artifact: seq<B>) {
    e.Try? && Lands(State(disk, 0), item, e.attempt, max, artifact) && Spoiled(State(disk, 0), e.attempt, artifact)
  }

  ghost predicate NoneLandsSpoiled<B>(disk: Disk<B>, item: Item<B>, episodes: seq<Episode<B>>, max: int, artifact: seq<B>, n: nat)
    requires n <= |episodes|
  {
    n > 0 ==>
      && NoneLandsSpoiled(disk, item, episodes, max, artifact, n - 1)
      && !LandsSpoiled(After(disk, item, episodes, max, n - 1), item, episodes[n - 1], max, artifact)
  }

  /** The target is what it was, removed by force, or the artifact. */
  ghost predicate TargetOk<B>(before: Option<seq<B>>, after: Option<seq<B>>, item: Item<B>, artifact: seq<B>) {
    after == before || after == Some(artifact) || (after == None && item.force)
  }

  lemma EpisodeTargetIff<B>(disk: Disk<B>, item: Item<B>, e: Episode<B>, max: int, artifact: seq<B>)
    requires HonestIn(disk, e, artifact)
    ensures !LandsSpoiled(disk, item, e, max, artifact) ==> TargetOk(disk.target, Happens(disk, item, e, max).target, item, artifact)
    ensures LandsSpoiled(disk, item, e, max, artifact) ==>
            Happens(disk, item, e, max) ==
            Disk(None, Some(Base(State(disk, 0), e.attempt) + Rest(artifact, |Content(disk.part)|)))
    ensures WholeIn(disk, item, e, max, artifact) <==> !LandsSpoiled(disk, item, e, max, artifact)
  {
    if e.Try? {
      AttemptLeaves(State(disk, 0), item, e.attempt, max, artifact);
      if Lands(State(disk, 0), item, e.attempt, max, artifact) {
        LandsWholeIff(State(disk, 0), item, e.attempt, max, artifact);
      }
    }
  }

  /** Every attempt that put a file in place put the whole artifact there. */
  ghost predicate WholeUpTo<B>(disk: Disk<B>, item: Item<B>, episodes: seq<Episode<B>>, max: int, artifact: seq<B>, n: nat)
    requires n <= |episodes|
  {
    n > 0 ==>
      && WholeUpTo(disk, item, episodes, max, artifact, n - 1)
      && WholeIn(After(disk, item, episodes, max, n - 1), item, episodes[n - 1], max, artifact)
  }

  ghost predicate WholeIn<B>(disk: Disk<B>, item: Item<B>, e: Episode<B>, max: int, artifact: seq<B>) {
    e.Try? && Lands(State(disk, 0), item, e.attempt, max, artifact) ==> Happens(disk, item, e, max).target == Some(artifact)
  }

  /**
   Over every history every file that lands is the whole artifact if and only if no
   spoiled attempt lands; the target is then at all times what it was, removed by
   force, or the artifact.
   */
  lemma {:induction false} LandedTargetsAreWholeIff<B>(disk: Disk<B>, item: Item<B>, episodes: seq<Episode<B>>, max: int,
                                                    artifact: seq<B>, n: nat)
    requires n <= |episodes| && HonestUpTo(disk, item, episodes, max, artifact, n)
    ensures WholeUpTo(disk, item, episodes, max, artifact, n) <==> NoneLandsSpoiled(disk, item, episodes, max, artifact, n)
    ensures NoneLandsSpoiled(disk, item, episodes, max, artifact, n) ==>
            TargetOk(disk.target, After(disk, item, episodes, max, n).target, item, artifact)
    decreases n
  {
    if n > 0 {
      LandedTargetsAreWholeIff(disk, item, episodes, max, artifact, n - 1);
      EpisodeTargetIff(After(disk, item, episodes, max, n - 1), item, episodes[n - 1], max, artifact);
    }
  }

  /** In none of the first `n` episodes does a discard fall between the size and the open of an attempt that resumes. */
  ghost predicate UnhurtUpTo<B>(disk: Disk<B>, item: Item<B>, episodes: seq<Episode<B>>, max: int, n: nat)
    requires n <= |episodes|
  {
    n > 0 ==>
      && UnhurtUpTo(disk, item, episodes, max, n - 1)
      && (episodes[n - 1].Try? ==> !Hurt(State(After(disk, item, episodes, max, n - 1), 0), episodes[n - 1].attempt))
  }

  /** Without such a discard the partial file is always a prefix, and a landed target is always whole. */
  lemma {:induction false} PartIsAlwaysAPrefix<B>(disk: Disk<B>, item: Item<B>, episodes: seq<Episode<B>>, max: int,
                                                  artifact: seq<B>, n: nat)
    requires Content(disk.part) <= artifact && n <= |episodes|
    requires HonestUpTo(disk, item, episodes, max, artifact, n) && UnhurtUpTo(disk, item, episodes, max, n)
    ensures PrefixUpTo(disk, item, episodes, max, artifact, n) && WholeUpTo(disk, item, episodes, max, artifact, n)
    ensures Content(After(disk, item, episodes, max, n).part) <= artifact
    ensures TargetOk(disk.target, After(disk, item, episodes, max, n).target, item, artifact)
  {
    UnhurtIsSound(disk, item, episodes, max, artifact, n);
    PrefixThroughoutIff(disk, item, episodes, max, artifact, n);
    LandedTargetsAreWholeIff(disk, item, episodes, max, artifact, n);
  }

  lemma {:induction false} UnhurtIsSound<B>(disk: Disk<B>, item: Item<B>, episodes: seq<Episode<B>>, max: int, artifact: seq<B>, n: nat)
    requires Content(disk.part) <= artifact && n <= |episodes|
    requires HonestUpTo(disk, item, episodes, max, artifact, n) && UnhurtUpTo(disk, item, episodes, max, n)
    ensures UntornUpTo(disk, item, episodes, max, artifact, n) && NoneLandsSpoiled(disk, item, episodes, max, artifact, n)
    decreases n
  {
    if n > 0 {
      UnhurtIsSound(disk, item, episodes, max, artifact, n - 1);
      PrefixThroughoutIff(disk, item, episodes, max, artifact, n - 1);
    }
  }

  /**
   Whatever happened before, the attempt that finishes leaves exactly what it fetched
   and has counted exactly the artifact's length; that is the artifact if and only if
   the attempt was not spoiled.
   */
  lemma FinishedTargetIsTheArtifactIff<B>(disk: Disk<B>, item: Item<B>, episodes: seq<Episode<B>>, max: int, artifact: seq<B>, n: nat)
    requires n < |episodes| && episodes[n].Try? && HonestUpTo(disk, item, episodes, max, artifact, n + 1)
    ensures var s, a := State(After(disk, item, episodes, max, n), 0), episodes[n].attempt;
            var done := Execute(s, item, a, max);
            && (done.1 == Done <==> Lands(s, item, a, max, artifact) && a.dirSynced)
            && (done.1 == Done ==>
                  && After(disk, item, episodes, max, n + 1) == Disk(None, Some(Fetched(s, a, artifact)))
                  && done.0.received == |artifact|
                  && (After(disk, item, episodes, max, n + 1).target == Some(artifact) <==> !Spoiled(s, a, artifact)))
  {
    var s, a := State(After(disk, item, episodes, max, n), 0), episodes[n].attempt;
    AttemptLeaves(s, item, a, max, artifact);
    if Lands(s, item, a, max, artifact) {
      LandsWholeIff(s, item, a, max, artifact);
    }
  }

  // ------------------------------------------------------------------
  // A discard between the size and the open
  // ------------------------------------------------------------------

  /** The rest of an artifact from `k` on, answered and received without a fault. */
  function Faultless<B>(rest: seq<B>, k: nat, losses: set<Moment>, ending: Ending): Attempt<B> {
    Attempt(if k == 0 then Reply(200, None, |rest|, [rest], ending) else Reply(206, Some(k), |rest|, [rest], ending),
            losses, true, true, true, true, true, true)
  }

  lemma FaultlessDelivers<B>(artifact: seq<B>, k: nat, losses: set<Moment>, max: int)
    requires k <= |artifact| <= max
    ensures var a := Faultless(artifact[k..], k, losses, Eof);
            && Honest(a.reply, artifact, k) && ResumeOffset(a.reply, k) == Ok(k) && Opens(a, k, max)
            && (k > 0 ==> Resumes(a.reply, k))
  {
    assert Flat([artifact[k..]], 1) == Flat([artifact[k..]], 0) + artifact[k..] == artifact[k..];
    assert artifact[0..] == artifact;
  }

  /** A plan that says nothing, or only the size, of its artifact. */
  predicate Undigested<B>(item: Item<B>, artifact: seq<B>) { item.digest.None? && item.size in {0, |artifact|} }

  /**
   Without a digest such an attempt finishes: the target lacks the beginning of the
   artifact, although every byte of it was counted and a stated size was matched.
   */
  lemma ADiscardCanLandASuffix<B>(item: Item<B>, artifact: seq<B>, k: nat, max: int)
    requires 0 < k < |artifact| <= max && Undigested(item, artifact)
    ensures var s := State(Disk(Some(artifact[..k]), None), 0);
            var a := Faultless(artifact[k..], k, {BeforeOpen}, Eof);
            && Honest(a.reply, artifact, Asked(s))
            && Execute(s, item, a, max) == (State(Disk(None, Some(artifact[k..])), |artifact|), Done)
  {
    var s := State(Disk(Some(artifact[..k]), None), 0);
    FaultlessDelivers(artifact, k, {BeforeOpen}, max);
    AttemptLeaves(s, item, Faultless(artifact[k..], k, {BeforeOpen}, Eof), max, artifact);
  }

  /** With a digest that tells the two apart the file is removed and the attempt fails. */
  lemma ADigestCatchesTheSuffix<B>(item: Item<B>, artifact: seq<B>, k: nat, max: int)
    requires 0 < k < |artifact| <= max && item.size in {0, |artifact|} && item.digest.Some? && !item.digest.value(artifact[k..])
    ensures var s := State(Disk(Some(artifact[..k]), None), 0);
            Execute(s, item, Faultless(artifact[k..], k, {BeforeOpen}, Eof), max) == (State(Disk(None, None), |artifact|), Failed)
  {
    var s, a := State(Disk(Some(artifact[..k]), None), 0), Faultless(artifact[k..], k, {BeforeOpen}, Eof);
    FaultlessDelivers(artifact, k, {BeforeOpen}, max);
    ResumesWhereThePartEnds(s, a.reply, artifact);
    CopiedIff(a, max, artifact, k);
    ComesToTheChecks(s, item, a, max, artifact, k);
  }

  /**
   When the stream breaks after `n` bytes, the torn file stays, and the next attempt
   completes it to a target of the artifact's own size that is not the artifact.
   */
  lemma ATornPartCanLandAtFullSize<B>(item: Item<B>, artifact: seq<B>, k: nat, n: nat, max: int)
    requires 0 < k && 0 < n && k + n < |artifact| <= max && Undigested(item, artifact)
    ensures var s := State(Disk(Some(artifact[..k]), None), 0);
            var torn := Disk(Some(artifact[k..k + n]), None);
            var broken := Attempt(BreaksOff(artifact, k, n), {BeforeOpen}, true, true, true, true, true, true);
            && Honest(broken.reply, artifact, k) && Honest(Faultless(artifact[n..], n, {}, Eof).reply, artifact, n)
            && Execute(s, item, broken, max) == (State(torn, k + n), Failed)
            && Execute(State(torn, 0), item, Faultless(artifact[n..], n, {}, Eof), max)
               == (State(Disk(None, Some(artifact[k..k + n] + artifact[n..])), |artifact|), Done)
            && |artifact[k..k + n] + artifact[n..]| == |artifact|
  {
    BreakTears(item, artifact, k, n, max);
    TornCompletes(item, artifact, k, n, max);
  }

  /** A reply from `k` on that breaks after `n` bytes. */
  function BreaksOff<B>(artifact: seq<B>, k: nat, n: nat): Reply<B>
    requires k + n <= |artifact|
  {
    Reply(206, Some(k), |artifact| - k, [artifact[k..k + n]], Broken)
  }

  lemma BreakTears<B>(item: Item<B>, artifact: seq<B>, k: nat, n: nat, max: int)
    requires 0 < k && k + n < |artifact| <= max
    ensures var a := Attempt(BreaksOff(artifact, k, n), {BeforeOpen}, true, true, true, true, true, true);
            && Honest(a.reply, artifact, k)
            && Execute(State(Disk(Some(artifact[..k]), None), 0), item, a, max) == (State(Disk(Some(artifact[k..k + n]), None), k + n), Failed)
  {
    var reply := BreaksOff(artifact, k, n);
    assert Flat([artifact[k..k + n]], 1) == Flat([artifact[k..k + n]], 0) + artifact[k..k + n] == artifact[k..k + n];
    assert Delivered(reply, k, max) == artifact[k..k + n];
    assert [] + artifact[k..k + n] == artifact[k..k + n];
  }

  lemma TornCompletes<B>(item: Item<B>, artifact: seq<B>, k: nat, n: nat, max: int)
    requires 0 < n && k + n < |artifact| <= max && Undigested(item, artifact)
    ensures var a := Faultless(artifact[n..], n, {}, Eof);
            && Honest(a.reply, artifact, n)
            && Execute(State(Disk(Some(artifact[k..k + n]), None), 0), item, a, max)
               == (State(Disk(None, Some(artifact[k..k + n] + artifact[n..])), |artifact|), Done)
  {
    var a := Faultless(artifact[n..], n, {}, Eof);
    FaultlessDelivers(artifact, n, {}, max);
    DeliveredIs(a.reply, n, max, artifact);
  }

  // ------------------------------------------------------------------
  // A complete partial file
  // ------------------------------------------------------------------

  /** A server that answers ranges as section 14.2 of RFC 9110 describes, 416 when the range starts past the end. */
  ghost predicate AnswersRanges<B>(reply: Reply<B>, artifact: seq<B>, asked: nat) {
    && reply.Reply? && Honest(reply, artifact, asked)
    && reply.status == (if asked == 0 then 200 else if asked < |artifact| then 206 else 416)
  }

  /** The attempt would land on a fresh file, whatever the status of its reply. */
  ghost predicate OtherwiseLands<B>(item: Item<B>, a: Attempt<B>, max: int, artifact: seq<B>) {
    a.losses == {} && a.dirSynced && a.reply.Reply? &&
    Lands(State(Disk(None, None), 0), item, a.(reply := a.reply.(status := 200)), max, artifact)
  }

  /**
   Against such a server an otherwise faultless attempt finishes exactly when the
   partial file is not complete yet: a complete one is answered with 416, and no
   attempt gets past that.
   */
  lemma CompletePartNeverFinishes<B>(s: State<B>, item: Item<B>, a: Attempt<B>, max: int, artifact: seq<B>)
    requires Content(s.disk.part) <= artifact && AnswersRanges(a.reply, artifact, Asked(s))
    requires OtherwiseLands(item, a, max, artifact)
    ensures Execute(s, item, a, max).1 == Done <==> Content(s.disk.part) != artifact || artifact == []
    ensures Content(s.disk.part) == artifact != [] ==> Execute(s, item, a, max) == (s, Failed)
  {
    AttemptLeaves(s, item, a, max, artifact);
    var part := Content(s.disk.part);
    assert |part| == |artifact| ==> part == artifact;
    FetchedIsTheArtifactIff(s, a, artifact);
    StartsOver(State(Disk(None, None), 0), a.(reply := a.reply.(status := 200)), artifact);
  }

  lemma StartsOver<B>(s: State<B>, a: Attempt<B>, artifact: seq<B>)
    requires Asked(s) == 0
    ensures Fetched(s, a, artifact) == artifact
  {
    assert [] + artifact[0..] == artifact;
  }

  lemma {:induction false} CompletePartIsStuck<B>(disk: Disk<B>, item: Item<B>, episodes: seq<Episode<B>>, max: int,
                                                  artifact: seq<B>, n: nat)
    requires Content(disk.part) == artifact != [] && n <= |episodes|
    requires forall e :: e in episodes ==>
               e.Try? && e.attempt.losses == {} && AnswersRanges(e.attempt.reply, artifact, |artifact|)
    ensures After(disk, item, episodes, max, n) == disk
    decreases n
  {
    if n > 0 {
      CompletePartIsStuck(disk, item, episodes, max, artifact, n - 1);
      assert episodes[n - 1] in episodes;
    }
  }

  /** A daemon that dies after the last byte of a first attempt leaves such a file. */
  lemma ACrashLeavesACompletePart<B>(item: Item<B>, artifact: seq<B>, max: int)
    requires |artifact| <= max
    ensures var a := Faultless(artifact, 0, {}, Crash);
            && AnswersRanges(a.reply, artifact, 0)
            && Execute(State(Disk(None, None), 0), item, a, max) == (State(Disk(Some(artifact), None), |artifact|), Crashed)
  {
    assert Flat([artifact], 1) == Flat([artifact], 0) + artifact == artifact;
    assert Limited(artifact, max + 1) == artifact;
    assert [] + artifact == artifact;
  }

  /** The restart that discards the file, once its job has failed, frees it: the next faultless attempt starts over and finishes. */
  lemma ADiscardFreesIt<B>(disk: Disk<B>, item: Item<B>, a: Attempt<B>, max: int, artifact: seq<B>)
    requires AnswersRanges(a.reply, artifact, 0) && OtherwiseLands(item, a, max, artifact)
    ensures Execute(State(Happens(disk, item, Discard, max), 0), item, a, max) == (State(Disk(None, Some(artifact)), |artifact|), Done)
  {
    var freed := State(Happens(disk, item, Discard, max), 0);
    AttemptLeaves(freed, item, a, max, artifact);
    StartsOver(freed, a, artifact);
    StartsOver(State(Disk(None, None), 0), a.(reply := a.reply.(status := 200)), artifact);
  }
}
