/**
 Uploads in verified chunks: an exclusive temporary file, a check of everything that was
 stored, one rename, and cleanup on every other way out; and the later inspection of an
 upload's record. Each remote request may be served, refused, or lost with its effect done
 or not, and may end in an exception that nobody handles, such as a cancellation.
 */
module Uploads {
  import opened Wrappers
  import opened Sequences
  import opened RemoteFs

  type Id = nat
  type Byte = b: int | 0 <= b < 256
  type Bytes = seq<Byte>
  type Digest = nat

  const CHUNK_LIMIT := 262144

  datatype RecordState =
    | Preparing | Transferring | Verifying | Committing | Succeeded | Failed | Cancelled | CleanupRequired | OutcomeUnknown

  predicate Final(state: RecordState) {
    state == Succeeded || state == Failed || state == Cancelled
  }

  datatype UploadError =
    | Duplicate | NotActive | TargetChanged | TempConflict | BeginFailed | SequenceInvalid | ChunkInvalid
    | SizeMismatch | WriteFailed | HashMismatch | TempInvalid | CommitUnknown | CleanupFailed | Raised

  // A read comes back, times out, or raises something nobody handles.
  datatype Look = Seen | TimedOut | Thrown

  // A write is done, fails, or is abandoned by a cancellation nobody handles.
  datatype Write = Written | Failing | Abandoned

  // The rename is answered, or an exception nobody handles hides whether it was done.
  datatype Rename = Replied(reply: Reply) | Escaped(applied: bool)

  predicate Renames(commit: Rename) {
    match commit case Replied(reply) => Acts(reply) case Escaped(applied) => applied
  }

  // How the three steps of a cleanup go; removing an absent file counts as served.
  datatype Cleanup = Cleanup(handleClosed: bool, removal: Reply, leaseClosed: bool)

  predicate Clears(cleanup: Cleanup, open: bool) {
    (cleanup.handleClosed || !open) && cleanup.removal.Served? && cleanup.leaseClosed
  }

  datatype Upload = Upload(
    target: string, snapshot: Option<Digest>, count: nat, source: Digest,
    sequence: nat, offset: nat, received: Bytes, handleOpen: bool)

  // What is stored of an operation: how far it is, and what an inspection needs.
  datatype Record = Record(state: RecordState, target: string, source: Digest)

  // Temporary files have their own names, one per operation, and `torn` are those with a
  // write that failed or was abandoned half-way; `targets` holds all other files.
  class RemoteDisk {
    var temps: map<Id, Bytes>
    var torn: set<Id>
    var targets: map<string, Bytes>

    constructor (targets: map<string, Bytes>)
      ensures temps == map[] && torn == {} && this.targets == targets
    {
      temps, torn, this.targets := map[], {}, targets;
    }
  }

  // The tables of the manager together with the files on the server; `accepted` are the
  // chunks taken so far, `begun` the operations whose start succeeded, and `renamed` those
  // that have replaced their target.
  datatype State = State(
    active: map<Id, Upload>, records: map<Id, Record>, temps: map<Id, Bytes>, targets: map<string, Bytes>,
    accepted: map<Id, seq<Bytes>>, begun: set<Id>, torn: set<Id>, renamed: set<Id>)

  predicate New(s: State) {
    s.active == map[] && s.records == map[] && s.begun == {} && s.renamed == {}
  }

  function SeenAt(sha: Bytes -> Digest, targets: map<string, Bytes>, target: string): Option<Digest> {
    if target in targets then Some(sha(targets[target])) else None
  }

  // ---------------------------------------------------------------- moves

  // Everything that can happen to the state at once: the moves of the manager on one
  // operation, an inspection of its record, a restart that forgets the active uploads, and
  // whatever others do to the other files.
  datatype Move =
    | Start(id: Id, upload: Upload)
    | Refuse(id: Id, record: Record, created: bool)
    | Grow(id: Id, chunk: Bytes, file: Bytes)
    | Tear(id: Id, file: Bytes)
    | Stage(id: Id, state: RecordState)
    | Close(id: Id, state: RecordState, removed: bool)
    | Commit(id: Id, commit: Rename)
    | Look(id: Id)
    | Restart
    | Others(targets: map<string, Bytes>)

  predicate Unused(s: State, id: Id) {
    id !in s.records && id !in s.active
  }

  // What is stored has the announced size and digest.
  predicate Stored(s: State, id: Id, sha: Bytes -> Digest) {
    id in s.active && id in s.temps && |s.temps[id]| == s.active[id].count && sha(s.temps[id]) == s.active[id].source
  }

  // The guards of the manager's branches.
  predicate Can(sha: Bytes -> Digest, s: State, move: Move) {
    match move
    case Start(id, upload) =>
      && Unused(s, id) && id !in s.temps
      && upload.sequence == 0 && upload.offset == 0 && upload.received == [] && upload.handleOpen
    case Refuse(id, record, created) => Unused(s, id) && record.state == Failed && (created ==> id !in s.temps)
    case Grow(id, chunk, _) =>
      && id in s.active && id in s.temps && id in s.accepted
      && Fits(s.active[id], s.active[id].sequence, s.active[id].offset, chunk)
    case Tear(id, _) => id in s.active && id in s.temps
    case Stage(id, state) =>
      && id in s.active && (state == Verifying || state == Committing)
      && s.active[id].offset == s.active[id].count && sha(s.active[id].received) == s.active[id].source
    case Close(id, state, removed) =>
      && id in s.active && (state == Failed || state == Cancelled || state == CleanupRequired)
      && (Final(state) ==> removed)
    case Commit(id, commit) =>
      Stored(s, id, sha) && !s.active[id].handleOpen && commit != Replied(Denied)
    case Look(id) => id in s.records
    case Restart => true
    case Others(_) => true
  }

  function Do(sha: Bytes -> Digest, s: State, move: Move): State
    requires Can(sha, s, move)
  {
    match move
    case Start(id, upload) => Started(s, id, upload)
    case Refuse(id, record, created) => Unstarted(s, id, record, created)
    case Grow(id, chunk, file) => Grown(s, id, chunk, file)
    case Tear(id, file) => Torn(s, id, file)
    case Stage(id, state) => Staged(s, id, state)
    case Close(id, state, removed) => Closed(s, id, state, removed)
    case Commit(id, commit) => Committed(s, id, commit)
    case Look(id) => Inspected(s, id, SeenAt(sha, s.targets, s.records[id].target))
    case Restart => s.(active := map[])
    case Others(targets) => s.(targets := targets)
  }

  function Started(s: State, id: Id, upload: Upload): State {
    s.(active := s.active[id := upload], records := s.records[id := Record(Transferring, upload.target, upload.source)],
       temps := s.temps[id := []], accepted := s.accepted[id := []], begun := s.begun + {id}, torn := s.torn - {id})
  }

  // A start that failed: the operation is recorded as failed and never became active; a
  // file it may have created is not known to belong to it.
  function Unstarted(s: State, id: Id, record: Record, created: bool): State {
    s.(records := s.records[id := record], temps := if created then s.temps[id := []] else s.temps)
  }

  // The state after one accepted chunk; `file` is what the temporary file then holds if an
  // earlier write was abandoned.
  function Grown(s: State, id: Id, chunk: Bytes, file: Bytes): State
    requires id in s.active && id in s.temps && id in s.accepted
  {
    var upload := s.active[id];
    s.(temps := s.temps[id := if id in s.torn then file else s.temps[id] + chunk],
       accepted := s.accepted[id := s.accepted[id] + [chunk]],
       active := s.active[id := upload.(sequence := upload.sequence + 1, offset := upload.offset + |chunk|,
                                        received := upload.received + chunk)])
  }

  // A write that did not come back: nobody knows what the file holds.
  function Torn(s: State, id: Id, file: Bytes): State {
    s.(temps := s.temps[id := file], torn := s.torn + {id})
  }

  // An upload that leaves the active table, with its file removed or not.
  function Closed(s: State, id: Id, state: RecordState, removed: bool): State
    requires id in s.active
  {
    s.(active := s.active - {id}, records := s.records[id := Record(state, s.active[id].target, s.active[id].source)],
       temps := if removed then s.temps - {id} else s.temps)
  }

  // The same upload at its next stage, its handle closed.
  function Staged(s: State, id: Id, state: RecordState): State
    requires id in s.active
  {
    s.(active := s.active[id := s.active[id].(handleOpen := false)],
       records := s.records[id := Record(state, s.active[id].target, s.active[id].source)])
  }

  // The rename, done or not, and how the upload goes on or ends.
  function Replaced(s: State, id: Id): State
    requires id in s.active && id in s.temps
  {
    s.(targets := s.targets[s.active[id].target := s.temps[id]], temps := s.temps - {id}, renamed := s.renamed + {id})
  }

  function Committed(s: State, id: Id, commit: Rename): State
    requires id in s.active && id in s.temps
  {
    var t := if Renames(commit) then Replaced(s, id) else s;
    match commit
    case Replied(reply) => Closed(t, id, if reply.Served? then Succeeded else OutcomeUnknown, false)
    case Escaped(_) => Staged(t, id, Committing)
  }

  // A target with the source's digest proves success, whatever else is there; with neither
  // that target nor the temporary file the upload has failed.
  function Inspected(s: State, id: Id, seen: Option<Digest>): State
    requires id in s.records
  {
    var record := s.records[id];
    if Final(record.state) then s
    else if seen == Some(record.source) then s.(records := s.records[id := record.(state := Succeeded)])
    else if id in s.temps then s
    else s.(records := s.records[id := record.(state := Failed)])
  }

  // A chunk at exactly the expected place, within both bounds.
  predicate Fits(upload: Upload, sequence: int, offset: int, chunk: Bytes) {
    && sequence == upload.sequence && offset == upload.offset
    && 1 <= |chunk| <= CHUNK_LIMIT && upload.offset + |chunk| <= upload.count
  }

  // Some moves after each other.
  predicate Plays(sha: Bytes -> Digest, s: State, moves: seq<Move>, t: State)
    decreases |moves|
  {
    if moves == [] then t == s
    else Can(sha, s, moves[0]) && Plays(sha, Do(sha, s, moves[0]), moves[1..], t)
  }

  // ---------------------------------------------------------------- what always holds

  // An active upload has counted exactly the accepted chunks; its temporary file is there
  // unless it has been renamed, and unless a write went wrong it holds exactly these bytes.
  predicate InStep(s: State, id: Id) {
    && (id in s.active ==>
          var upload := s.active[id];
          && id in s.records && id in s.begun && id in s.accepted
          && s.records[id].target == upload.target && s.records[id].source == upload.source
          && upload.received == Flatten(s.accepted[id])
          && upload.sequence == |s.accepted[id]| && upload.offset == |upload.received| <= upload.count
          && (upload.handleOpen ==> id in s.temps)
          && (!upload.handleOpen ==> upload.offset == upload.count)
          && (id in s.temps && id !in s.torn ==> s.temps[id] == upload.received)
          && (id in s.renamed <==> id !in s.temps))
    && (id in s.begun ==> id in s.records)
    && (id in s.renamed ==> id in s.begun && id !in s.temps)
  }

  ghost predicate Sound(s: State) {
    forall id :: InStep(s, id)
  }

  predicate SameAt(s: State, t: State, id: Id) {
    && (id in s.active <==> id in t.active) && (id in s.active ==> s.active[id] == t.active[id])
    && (id in s.records <==> id in t.records) && (id in s.records ==> s.records[id] == t.records[id])
    && (id in s.temps <==> id in t.temps) && (id in s.temps ==> s.temps[id] == t.temps[id])
    && (id in s.accepted <==> id in t.accepted) && (id in s.accepted ==> s.accepted[id] == t.accepted[id])
    && (id in s.begun <==> id in t.begun) && (id in s.torn <==> id in t.torn) && (id in s.renamed <==> id in t.renamed)
  }

  // The moves that speak of one operation leave all others alone.
  predicate About(move: Move, id: Id) {
    !move.Restart? && !move.Others? && move.id == id
  }

  lemma CommittedParts(s: State, id: Id, commit: Rename, other: Id)
    requires id in s.active && id in s.temps
    ensures var t, upload := Committed(s, id, commit), s.active[id];
            && (other != id ==> SameAt(s, t, other))
            && t.active == (if commit.Escaped? then s.active[id := upload.(handleOpen := false)] else s.active - {id})
            && t.records == s.records[id := Record(
                 if commit.Escaped? then Committing else if commit.reply.Served? then Succeeded else OutcomeUnknown,
                 upload.target, upload.source)]
            && t.temps == (if Renames(commit) then s.temps - {id} else s.temps)
            && t.renamed == (if Renames(commit) then s.renamed + {id} else s.renamed)
            && t.accepted == s.accepted && t.begun == s.begun && t.torn == s.torn
            && t.targets == (if Renames(commit) then s.targets[upload.target := s.temps[id]] else s.targets)
  {
  }

  lemma OthersStay(sha: Bytes -> Digest, s: State, move: Move, id: Id)
    requires Can(sha, s, move) && !move.Restart? && !About(move, id)
    ensures SameAt(s, Do(sha, s, move), id)
  {
    hide Fits, Committed, SeenAt;
    if move.Commit? {
      CommittedParts(s, move.id, move.commit, id);
    }
  }

  lemma SoundAt(s: State, id: Id)
    requires Sound(s)
    ensures InStep(s, id)
  {
  }

  lemma OwnInStep(sha: Bytes -> Digest, s: State, move: Move)
    requires Can(sha, s, move) && !move.Restart? && !move.Others? && InStep(s, move.id)
    ensures InStep(Do(sha, s, move), move.id)
  {
    hide Committed;
    if move.Grow? {
      FlattenNext(s.accepted[move.id], move.chunk);
    } else if move.Commit? {
      CommittedParts(s, move.id, move.commit, move.id);
    }
  }

  lemma MoveIsSound(sha: Bytes -> Digest, s: State, move: Move)
    requires Sound(s) && Can(sha, s, move)
    ensures Sound(Do(sha, s, move))
  {
    var t := Do(sha, s, move);
    forall id ensures InStep(t, id) {
      SoundAt(s, id);
      if About(move, id) {
        OwnInStep(sha, s, move);
      } else if !move.Restart? {
        hide Can, Do;
        OthersStay(sha, s, move, id);
      }
    }
  }

  lemma PlayNone(sha: Bytes -> Digest, s: State)
    ensures Plays(sha, s, [], s)
  {
  }

  lemma PlayOne(sha: Bytes -> Digest, s: State, move: Move)
    requires Sound(s) && Can(sha, s, move)
    ensures Plays(sha, s, [move], Do(sha, s, move)) && Sound(Do(sha, s, move))
  {
    MoveIsSound(sha, s, move);
    hide Sound, Can, Do;
    assert [move][1..] == [];
  }

  lemma {:induction false} PlayOn(sha: Bytes -> Digest, s: State, moves: seq<Move>, t: State, more: seq<Move>, u: State)
    requires Plays(sha, s, moves, t) && Plays(sha, t, more, u)
    ensures Plays(sha, s, moves + more, u)
    decreases |moves|
  {
    hide Can, Do;
    if moves == [] {
      assert [] + more == more;
    } else {
      PlayOn(sha, Do(sha, s, moves[0]), moves[1..], t, more, u);
      assert (moves + more)[1..] == moves[1..] + more;
    }
  }

  lemma ClosedParts(s: State, id: Id, state: RecordState, removed: bool)
    requires id in s.active
    ensures var t := Closed(s, id, state, removed); id !in t.active && id in t.records && t.records[id].state == state
  {
  }

  lemma StagedParts(s: State, id: Id, state: RecordState)
    requires id in s.active
    ensures var t := Staged(s, id, state);
            && id in t.active && t.active[id] == s.active[id].(handleOpen := false)
            && id in t.records && t.records[id] == Record(state, s.active[id].target, s.active[id].source)
            && t.temps == s.temps && t.targets == s.targets && t.torn == s.torn
  {
  }

  lemma RecordForgotten(records: map<Id, Record>, id: Id, record: Record)
    ensures forall other: Record {:trigger records[id := record][id := other]} ::
              records[id := record][id := other] == records[id := other]
  {
  }

  // A stage leaves no trace once the next end or stage is stored.
  lemma StageForgotten(s: State, id: Id, stage: RecordState, state: RecordState, removed: bool, commit: Rename)
    requires id in s.active
    ensures Closed(Staged(s, id, stage), id, state, removed) == Closed(s, id, state, removed)
    ensures Staged(Staged(s, id, stage), id, state) == Staged(s, id, state)
    ensures id in s.temps ==> Committed(Staged(s, id, stage), id, commit) == Committed(s, id, commit)
  {
    var t := Staged(s, id, stage);
    assert t.active - {id} == s.active - {id};
    var upload := s.active[id];
    RecordForgotten(s.records, id, Record(stage, upload.target, upload.source));
    assert t.active[id := upload.(handleOpen := false)] == s.active[id := upload.(handleOpen := false)];
  }

  // ---------------------------------------------------------------- the checks before the commit

  datatype Check = Good | Bad(error: UploadError) | Stuck

  // Everything received and as announced; the file read back the same; the target as it was.
  function CheckOf(upload: Upload, file: Option<Bytes>, seen: Option<Digest>, sha: Bytes -> Digest,
                   handleCloses: bool, tempLook: Look, targetLook: Look): Check {
    if upload.offset != upload.count || sha(upload.received) != upload.source then Bad(HashMismatch)
    else if upload.handleOpen && !handleCloses then Stuck
    else if tempLook.Thrown? then Stuck
    else if tempLook.TimedOut? || file.None? || |file.value| != upload.count || sha(file.value) != upload.source
    then Bad(TempInvalid)
    else if targetLook.Thrown? then Stuck
    else if targetLook.TimedOut? || seen != upload.snapshot then Bad(TargetChanged)
    else Good
  }

  // Closing the handle is the first of the checks after the digest.
  lemma CheckStaged(upload: Upload, file: Option<Bytes>, seen: Option<Digest>, sha: Bytes -> Digest,
                    handleCloses: bool, tempLook: Look, targetLook: Look)
    ensures CheckOf(upload, file, seen, sha, handleCloses, tempLook, targetLook) ==
            if upload.offset != upload.count || sha(upload.received) != upload.source then Bad(HashMismatch)
            else if upload.handleOpen && !handleCloses then Stuck
            else CheckOf(upload.(handleOpen := false), file, seen, sha, true, tempLook, targetLook)
  {
  }

  function FileOf(temps: map<Id, Bytes>, id: Id): Option<Bytes> {
    if id in temps then Some(temps[id]) else None
  }

  // What a finish makes of an active upload.
  function FinishOf(s: State, id: Id, check: Check, commit: Rename, cleanup: Cleanup): State
    requires id in s.active && (check.Good? ==> id in s.temps)
  {
    match check
    case Bad(error) =>
      Closed(s, id, if Clears(cleanup, error == HashMismatch && s.active[id].handleOpen) then Failed else CleanupRequired,
             Acts(cleanup.removal))
    case Stuck => Staged(s, id, Verifying)
    case Good =>
      if commit == Replied(Denied)
      then Closed(s, id, if Clears(cleanup, false) then Failed else CleanupRequired, Acts(cleanup.removal))
      else Committed(s, id, commit)
  }

  class UploadManager {
    const sha: Bytes -> Digest
    const disk: RemoteDisk
    var active: map<Id, Upload>
    var records: map<Id, Record>
    ghost var accepted: map<Id, seq<Bytes>>
    ghost var begun: set<Id>
    ghost var renamed: set<Id>

    ghost function Value(): State
      reads this, disk
    {
      State(active, records, disk.temps, disk.targets, accepted, begun, disk.torn, renamed)
    }

    constructor (sha: Bytes -> Digest, disk: RemoteDisk)
      ensures Sound(Value()) && New(Value()) && this.sha == sha && this.disk == disk
    {
      this.sha, this.disk, active, records, accepted, begun, renamed := sha, disk, map[], map[], map[], {}, {};
    }

    function Snapshot(target: string): Option<Digest>
      reads this, disk
    {
      SeenAt(sha, disk.targets, target)
    }

    // The look at the target and the exclusive creation of the temporary file.
    method OpenTemp(id: Id, target: string, snapshot: Option<Digest>, look: Look, create: Reply)
      returns (problem: Option<UploadError>)
      modifies disk`temps
      ensures problem.None? <==>
                look.Seen? && old(Snapshot(target)) == snapshot && create.Served? && id !in old(disk.temps)
      ensures problem.None? ==> disk.temps == old(disk.temps)[id := []]
      ensures disk.temps == old(disk.temps) || (id !in old(disk.temps) && disk.temps == old(disk.temps)[id := []])
      ensures problem == Some(TargetChanged) <==> look.Seen? && old(Snapshot(target)) != snapshot
      ensures problem == Some(TempConflict) <==>
                look.Seen? && old(Snapshot(target)) == snapshot && create.Served? && id in old(disk.temps)
      ensures problem.Some? ==> problem.value in {TargetChanged, TempConflict, BeginFailed}
    {
      if !look.Seen? || Snapshot(target) != snapshot {
        return Some(if look.Seen? then TargetChanged else BeginFailed);
      }
      var present := id in disk.temps;
      if Acts(create) && !present {
        disk.temps := disk.temps[id := []];
      }
      problem := if !create.Served? then Some(BeginFailed) else if present then Some(TempConflict) else None;
    }

    // A used identifier is refused; a start that fails leaves the operation failed.
    method Begin(id: Id, target: string, count: nat, source: Digest, snapshot: Option<Digest>, look: Look, create: Reply)
      returns (outcome: Result<(), UploadError>, ghost moves: seq<Move>)
      requires Sound(Value())
      modifies this`active, this`records, this`accepted, this`begun, disk`temps, disk`torn
      ensures Sound(Value()) && Plays(sha, old(Value()), moves, Value())
      ensures id in old(records) || id in old(active) ==> outcome == Err(Duplicate) && Value() == old(Value()) && moves == []
      ensures outcome.Ok? <==>
                && id !in old(records) && id !in old(active) && id !in old(disk.temps)
                && look.Seen? && create.Served? && old(Snapshot(target)) == snapshot
      ensures var upload := Upload(target, snapshot, count, source, 0, 0, [], true);
              outcome.Ok? ==> Value() == Started(old(Value()), id, upload) && moves == [Move.Start(id, upload)]
      ensures outcome.Err? && id !in old(records) && id !in old(active) ==>
                && outcome.error in {TargetChanged, TempConflict, BeginFailed}
                && (outcome.error == TargetChanged <==> look.Seen? && old(Snapshot(target)) != snapshot)
                && (outcome.error == TempConflict ==> id in old(disk.temps) && create.Served?)
                && exists created :: moves == [Move.Refuse(id, Record(Failed, target, source), created)]
    {
      hide Sound, Plays;
      ghost var before := Value();
      PlayNone(sha, before);
      if id in active || id in records {
        return Err(Duplicate), [];
      }
      var known := records;
      records := known[id := Record(Preparing, target, source)];
      var problem := OpenTemp(id, target, snapshot, look, create);
      if problem.Some? {
        records := known[id := Record(Failed, target, source)];
        ghost var created := disk.temps != before.temps;
        moves := [Move.Refuse(id, Record(Failed, target, source), created)];
        PlayOne(sha, before, moves[0]);
        assert Value() == Unstarted(before, id, Record(Failed, target, source), created);
        return Err(problem.value), moves;
      }
      var upload := Upload(target, snapshot, count, source, 0, 0, [], true);
      moves := [Move.Start(id, upload)];
      Activate(id, upload, before);
      outcome := Ok(());
    }

    // The state of an upload whose file was just created; `before` is that before the start.
    method Activate(id: Id, upload: Upload, ghost before: State)
      requires Sound(before) && Can(sha, before, Move.Start(id, upload))
      requires Value() == before.(records := before.records[id := Record(Preparing, upload.target, upload.source)],
                                  temps := before.temps[id := []])
      modifies this`active, this`records, this`accepted, this`begun, disk`torn
      ensures Sound(Value()) && Plays(sha, before, [Move.Start(id, upload)], Value())
      ensures Value() == Started(before, id, upload)
    {
      hide Sound, Plays;
      RecordForgotten(before.records, id, Record(Preparing, upload.target, upload.source));
      active := active[id := upload];
      records := records[id := Record(Transferring, upload.target, upload.source)];
      accepted, begun := accepted[id := []], begun + {id};
      disk.torn := disk.torn - {id};
      PlayOne(sha, before, Move.Start(id, upload));
      assert Value() == Started(before, id, upload);
    }

    // One bounded chunk at exactly the expected place; `file` is what the temporary file
    // holds after a write that is not a clean append.
    method WriteChunk(id: Id, sequence: int, offset: int, chunk: Bytes, write: Write, file: Bytes, cleanup: Cleanup)
      returns (outcome: Result<nat, UploadError>, ghost moves: seq<Move>)
      requires Sound(Value())
      modifies this`active, this`records, this`accepted, disk`temps, disk`torn
      ensures Sound(Value()) && Plays(sha, old(Value()), moves, Value())
      ensures id !in old(active) ==> outcome == Err(NotActive) && Value() == old(Value()) && moves == []
      ensures outcome.Ok? <==> id in old(active) && Fits(old(active)[id], sequence, offset, chunk) && write.Written?
      ensures outcome.Ok? ==>
                && id in old(disk.temps) && id in old(accepted) && moves == [Move.Grow(id, chunk, file)]
                && outcome.value == |chunk| && Value() == Grown(old(Value()), id, chunk, file)
      ensures id in old(active) && outcome.Err? ==>
                var fits := Fits(old(active)[id], sequence, offset, chunk);
                var met := if fits then Torn(old(Value()), id, file) else old(Value());
                var state := if Clears(cleanup, old(active)[id].handleOpen) then Failed else CleanupRequired;
                var close := [Move.Close(id, state, Acts(cleanup.removal))];
                if fits && write.Abandoned? then Value() == met && moves == [Move.Tear(id, file)]
                else Value() == Closed(met, id, state, Acts(cleanup.removal))
                     && moves == if fits then [Move.Tear(id, file)] + close else close
      // What is reported, once the cleanup went well.
      ensures id in old(active) && outcome.Err? ==>
                var upload := old(active)[id];
                if Fits(upload, sequence, offset, chunk) && write.Abandoned? then outcome.error == Raised
                else if !Clears(cleanup, upload.handleOpen) then outcome.error == CleanupFailed
                else
                  && (outcome.error == SequenceInvalid <==> sequence != upload.sequence || offset != upload.offset)
                  && (outcome.error == WriteFailed <==> Fits(upload, sequence, offset, chunk))
                  && (outcome.error == SizeMismatch <==>
                        && sequence == upload.sequence && offset == upload.offset && 1 <= |chunk| <= 262144
                        && upload.offset + |chunk| > upload.count)
                  && outcome.error in {SequenceInvalid, ChunkInvalid, SizeMismatch, WriteFailed}
    {
      hide Sound, Plays;
      ghost var before := Value();
      PlayNone(sha, before);
      if id !in active {
        return Err(NotActive), [];
      }
      SoundAt(Value(), id);
      var upload := active[id];
      if !Fits(upload, sequence, offset, chunk) {
        var error;
        error, moves := CloseUpload(
          id, Failed,
          if sequence != upload.sequence || offset != upload.offset then SequenceInvalid
          else if !(1 <= |chunk| <= CHUNK_LIMIT) then ChunkInvalid else SizeMismatch, cleanup);
        return Err(error), moves;
      }
      if !write.Written? {
        disk.temps := disk.temps[id := file];
        disk.torn := disk.torn + {id};
        moves := [Move.Tear(id, file)];
        PlayOne(sha, before, moves[0]);
        assert Value() == Torn(before, id, file);
        if write.Abandoned? {
          return Err(Raised), moves;
        }
        ghost var middle := Value();
        var error;
        ghost var more;
        error, more := CloseUpload(id, Failed, WriteFailed, cleanup);
        PlayOn(sha, before, moves, middle, more, Value());
        return Err(error), moves + more;
      }
      disk.temps := disk.temps[id := if id in disk.torn then file else disk.temps[id] + chunk];
      accepted := accepted[id := accepted[id] + [chunk]];
      active := active[id := upload.(sequence := upload.sequence + 1, offset := upload.offset + |chunk|,
                                     received := upload.received + chunk)];
      moves := [Move.Grow(id, chunk, file)];
      PlayOne(sha, before, moves[0]);
      assert Value() == Grown(before, id, chunk, file);
      outcome := Ok(|chunk|);
    }

    // Handle, temporary file, channel; a definite end only if all of it went well.
    method CloseUpload(id: Id, receipt: RecordState, reason: UploadError, cleanup: Cleanup)
      returns (error: UploadError, ghost moves: seq<Move>)
      requires Sound(Value()) && id in active && (receipt == Failed || receipt == Cancelled)
      modifies this`active, this`records, disk`temps
      ensures Sound(Value()) && Plays(sha, old(Value()), moves, Value())
      ensures var state := if Clears(cleanup, old(active)[id].handleOpen) then receipt else CleanupRequired;
              && Value() == Closed(old(Value()), id, state, Acts(cleanup.removal))
              && moves == [Move.Close(id, state, Acts(cleanup.removal))]
      ensures id in records && (records[id].state == receipt <==>
                (cleanup.handleClosed || !old(active)[id].handleOpen) && cleanup.removal.Served? && cleanup.leaseClosed)
      ensures error == if records[id].state == receipt then reason else CleanupFailed
    {
      hide Sound, Plays;
      ghost var before := Value();
      var upload := active[id];
      active := active - {id};
      var clean := cleanup.handleClosed || !upload.handleOpen;
      if Acts(cleanup.removal) {
        disk.temps := disk.temps - {id};
      }
      clean := clean && cleanup.removal.Served? && cleanup.leaseClosed;
      var state := if clean then receipt else CleanupRequired;
      records := records[id := Record(state, upload.target, upload.source)];
      moves := [Move.Close(id, state, Acts(cleanup.removal))];
      PlayOne(sha, before, moves[0]);
      assert Value() == Closed(before, id, state, Acts(cleanup.removal));
      error := if clean then reason else CleanupFailed;
    }

    method Abort(id: Id, cleanup: Cleanup) returns (outcome: Result<RecordState, UploadError>, ghost moves: seq<Move>)
      requires Sound(Value())
      modifies this`active, this`records, disk`temps
      ensures Sound(Value()) && Plays(sha, old(Value()), moves, Value())
      ensures id !in old(active) ==> outcome == Err(NotActive) && Value() == old(Value()) && moves == []
      ensures id in old(active) ==>
                var state := if Clears(cleanup, old(active)[id].handleOpen) then Cancelled else CleanupRequired;
                && Value() == Closed(old(Value()), id, state, Acts(cleanup.removal))
                && moves == [Move.Close(id, state, Acts(cleanup.removal))]
                && outcome == if state == Cancelled then Ok(Cancelled) else Err(CleanupFailed)
    {
      hide Sound, Plays;
      PlayNone(sha, Value());
      if id !in active {
        return Err(NotActive), [];
      }
      var error;
      error, moves := CloseUpload(id, Cancelled, Raised, cleanup);
      outcome := if records[id].state == Cancelled then Ok(Cancelled) else Err(error);
    }

    // Stores the next stage of an upload whose handle has been let go of.
    method PutStage(id: Id, state: RecordState)
      requires Sound(Value()) && Can(sha, Value(), Move.Stage(id, state))
      modifies this`active, this`records
      ensures Sound(Value()) && Plays(sha, old(Value()), [Move.Stage(id, state)], Value())
      ensures Value() == Staged(old(Value()), id, state)
    {
      hide Sound, Plays;
      ghost var before := Value();
      var upload := active[id];
      records := records[id := Record(state, upload.target, upload.source)];
      active := active[id := upload.(handleOpen := false)];
      PlayOne(sha, before, Move.Stage(id, state));
      assert Value() == Staged(before, id, state);
    }

    // Closes the handle and checks everything before the commit; the upload is then ready,
    // has failed and been cleaned up, or stays active after an error nobody handles.
    method Verify(id: Id, handleCloses: bool, tempLook: Look, targetLook: Look, cleanup: Cleanup)
      returns (check: Check, ghost moves: seq<Move>)
      requires Sound(Value()) && id in active
      modifies this`active, this`records, disk`temps
      ensures Sound(Value()) && Plays(sha, old(Value()), moves, Value())
      ensures check == CheckOf(old(active)[id], FileOf(old(disk.temps), id), old(Snapshot(active[id].target)), sha,
                               handleCloses, tempLook, targetLook)
      ensures if check.Bad?
              then Value() == FinishOf(old(Value()), id, check, Replied(Denied), cleanup)
              else Value() == Staged(old(Value()), id, Verifying) && Can(sha, Value(), Move.Stage(id, Committing))
    {
      hide Sound, Staged, Closed, Clears, CheckOf, FileOf, Plays, FinishOf, SeenAt;
      ghost var before := Value();
      var upload := active[id];
      CheckStaged(upload, FileOf(disk.temps, id), Snapshot(upload.target), sha, handleCloses, tempLook, targetLook);
      if upload.offset != upload.count || sha(upload.received) != upload.source {
        var failed;
        failed, moves := CloseUpload(id, Failed, HashMismatch, cleanup);
        FinishBad(before, id, HashMismatch, cleanup);
        return Bad(HashMismatch), moves;
      }
      StagedParts(before, id, Verifying);
      PutStage(id, Verifying);
      moves := [Move.Stage(id, Verifying)];
      if upload.handleOpen && !handleCloses {
        return Stuck, moves;
      }
      ghost var middle := Value();
      check := Examine(id, tempLook, targetLook);
      if check.Bad? {
        ghost var state := if Clears(cleanup, false) then Failed else CleanupRequired;
        StageForgotten(before, id, Verifying, state, Acts(cleanup.removal), Replied(Denied));
        var failed;
        ghost var more;
        failed, more := CloseUpload(id, Failed, check.error, cleanup);
        FinishBad(before, id, check.error, cleanup);
        PlayOn(sha, before, moves, middle, more, Value());
        moves := moves + more;
      }
    }

    // What is stored, read back; then the target.
    method Examine(id: Id, tempLook: Look, targetLook: Look) returns (check: Check)
      requires id in active && !active[id].handleOpen
      requires active[id].offset == active[id].count && sha(active[id].received) == active[id].source
      ensures check == CheckOf(active[id], FileOf(disk.temps, id), Snapshot(active[id].target), sha,
                               true, tempLook, targetLook)
      ensures check != Bad(HashMismatch)
    {
      var upload := active[id];
      if tempLook.Thrown? {
        return Stuck;
      }
      if tempLook.TimedOut? || id !in disk.temps || |disk.temps[id]| != upload.count || sha(disk.temps[id]) != upload.source {
        return Bad(TempInvalid);
      }
      if targetLook.Thrown? {
        return Stuck;
      }
      if targetLook.TimedOut? || Snapshot(upload.target) != upload.snapshot {
        return Bad(TargetChanged);
      }
      check := Good;
    }

    // The one rename; only its confirmation ends the upload as succeeded, and an exception
    // nobody handles leaves it active, whether the rename was done or not.
    method CommitUpload(id: Id, commit: Rename, cleanup: Cleanup)
      returns (outcome: Result<(), UploadError>, ghost moves: seq<Move>)
      requires Sound(Value()) && Stored(Value(), id, sha) && Can(sha, Value(), Move.Stage(id, Committing))
      requires !active[id].handleOpen
      modifies this`active, this`records, this`renamed, disk`temps, disk`targets
      ensures Sound(Value()) && Plays(sha, old(Value()), moves, Value())
      ensures Value() == FinishOf(old(Value()), id, Good, commit, cleanup)
      ensures outcome.Ok? <==> commit == Replied(Served)
      ensures outcome == Err(CommitUnknown) <==> commit.Replied? && commit.reply.Lost?
      ensures outcome == Err(Raised) <==> commit.Escaped?
    {
      hide Sound, Closed, Staged, Committed, Clears, Plays;
      ghost var before := Value();
      StageForgotten(before, id, Committing, if Clears(cleanup, false) then Failed else CleanupRequired,
                     Acts(cleanup.removal), commit);
      StagedParts(before, id, Committing);
      PutStage(id, Committing);
      ghost var middle := Value();
      ghost var first := [Move.Stage(id, Committing)];
      if commit == Replied(Denied) {
        var failed;
        failed, moves := CloseUpload(id, Failed, TargetChanged, cleanup);
        PlayOn(sha, before, first, middle, moves, Value());
        return Err(failed), first + moves;
      }
      outcome := SendRename(id, commit);
      PlayOn(sha, before, first, middle, [Move.Commit(id, commit)], Value());
      moves := first + [Move.Commit(id, commit)];
    }

    // The rename that is not refused.
    method SendRename(id: Id, commit: Rename) returns (outcome: Result<(), UploadError>)
      requires Sound(Value()) && Can(sha, Value(), Move.Commit(id, commit)) && id in records
      requires records[id] == Record(Committing, active[id].target, active[id].source)
      modifies this`active, this`records, this`renamed, disk`temps, disk`targets
      ensures Sound(Value()) && Plays(sha, old(Value()), [Move.Commit(id, commit)], Value())
      ensures Value() == Committed(old(Value()), id, commit)
      ensures outcome == match commit case Replied(reply) => if reply.Served? then Ok(()) else Err(CommitUnknown)
                         case Escaped(_) => Err(Raised)
    {
      hide Sound, Plays;
      ghost var before := Value();
      var upload := active[id];
      if Renames(commit) {
        disk.targets := disk.targets[upload.target := disk.temps[id]];
        disk.temps := disk.temps - {id};
        renamed := renamed + {id};
      }
      PlayOne(sha, before, Move.Commit(id, commit));
      if commit.Escaped? {
        assert active == active[id := upload.(handleOpen := false)];
        assert records == records[id := records[id]];
        return Err(Raised);
      }
      var state := if commit.reply.Served? then Succeeded else OutcomeUnknown;
      active := active - {id};
      records := records[id := Record(state, upload.target, upload.source)];
      outcome := if commit.reply.Served? then Ok(()) else Err(CommitUnknown);
    }

    // Verification and the single rename, exactly. The target changes just if the checks
    // pass and the rename is done, and then holds bytes of the source's size and digest.
    method Finish(id: Id, handleCloses: bool, tempLook: Look, targetLook: Look, commit: Rename, cleanup: Cleanup)
      returns (outcome: Result<(), UploadError>, ghost check: Check, ghost moves: seq<Move>)
      requires Sound(Value())
      modifies this`active, this`records, this`renamed, disk`temps, disk`targets
      ensures Sound(Value()) && Plays(sha, old(Value()), moves, Value())
      ensures id !in old(active) ==> outcome == Err(NotActive) && Value() == old(Value()) && moves == []
      ensures id in old(active) ==>
                var upload := old(active)[id];
                && check == CheckOf(upload, FileOf(old(disk.temps), id), old(Snapshot(active[id].target)), sha,
                                    handleCloses, tempLook, targetLook)
                && (check.Good? ==>
                      && Stored(old(Value()), id, sha) && (id !in old(disk.torn) ==> old(disk.temps)[id] == upload.received))
                && Value() == FinishOf(old(Value()), id, check, commit, cleanup)
                && disk.targets == (if check.Good? && Renames(commit)
                                    then old(disk.targets)[upload.target := old(disk.temps)[id]] else old(disk.targets))
                && (outcome.Ok? <==> check.Good? && commit == Replied(Served))
      // An upload that was received completely, and met with no failure and no change, ends
      // as succeeded with its bytes at the target.
      ensures id in old(active) && Received(old(active)[id], sha) && id !in old(disk.torn) && id !in old(renamed)
              && old(Snapshot(active[id].target)) == old(active)[id].snapshot
              && handleCloses && tempLook == Seen && targetLook == Seen && commit == Replied(Served) ==>
                && outcome.Ok? && id in records && records[id].state == Succeeded && id !in active
                && old(active)[id].target in disk.targets && disk.targets[old(active)[id].target] == old(active)[id].received
    {
      hide Sound, CheckOf, Plays, FinishOf;
      ghost var before := Value();
      PlayNone(sha, before);
      check := Stuck;
      if id !in active {
        return Err(NotActive), check, [];
      }
      SoundAt(before, id);
      var verdict;
      verdict, moves := Verify(id, handleCloses, tempLook, targetLook, cleanup);
      check := verdict;
      CheckMeans(before.active[id], FileOf(before.temps, id), SeenAt(sha, before.targets, before.active[id].target), sha,
                 handleCloses, tempLook, targetLook);
      if !verdict.Good? {
        FinishedTargets(before, id, check, commit, cleanup);
        FinishIs(before, id, check, commit, cleanup);
        return Err(if verdict.Bad? then verdict.error else Raised), check, moves;
      }
      FinishedTargets(before, id, check, commit, cleanup);
      FinishServed(before, id, cleanup);
      FinishStaged(before, id, commit, cleanup);
      ghost var middle := Value();
      ghost var more;
      outcome, more := CommitUpload(id, commit, cleanup);
      PlayOn(sha, before, moves, middle, more, Value());
      moves := moves + more;
    }

    // A finish, and the shutdown that meets the upload if it is still active: recorded as
    // cancelled over a replaced target exactly if the rename was done behind an exception
    // and the cleanup went well.
    method FinishThenAbort(id: Id, handleCloses: bool, tempLook: Look, targetLook: Look, commit: Rename,
                           cleanup: Cleanup, last: Cleanup)
      returns (ghost check: Check)
      requires Sound(Value()) && id in active
      modifies this`active, this`records, this`renamed, disk`temps, disk`targets
      ensures Sound(Value()) && id !in active && id in records
      ensures check == CheckOf(old(active)[id], FileOf(old(disk.temps), id), old(Snapshot(active[id].target)), sha,
                               handleCloses, tempLook, targetLook)
      ensures check.Good? ==> id in old(disk.temps)
      ensures disk.targets == if check.Good? && Renames(commit)
                              then old(disk.targets)[old(active)[id].target := old(disk.temps)[id]] else old(disk.targets)
      ensures check.Good? && Renames(commit) ==>
                records[id].state ==
                match commit
                case Replied(reply) => if reply.Served? then Succeeded else OutcomeUnknown
                case Escaped(_) => if Clears(last, false) then Cancelled else CleanupRequired
    {
      hide Sound, Plays, CheckOf, Clears;
      var outcome;
      ghost var moves;
      outcome, check, moves := Finish(id, handleCloses, tempLook, targetLook, commit, cleanup);
      if id in active {
        var aborted, _ := Abort(id, last);
      }
    }

    // What an inspection of any stored upload, active or not, finds out and stores.
    method Inspect(id: Id) returns (proved: Option<RecordState>)
      requires Sound(Value()) && id in records
      modifies this`records
      ensures Sound(Value()) && Plays(sha, old(Value()), [Move.Look(id)], Value())
      ensures Value() == Inspected(old(Value()), id, Snapshot(old(records)[id].target))
      ensures proved == if Final(records[id].state) then Some(records[id].state) else None
      ensures var record := old(records)[id];
              if Final(record.state) then records[id] == record
              else
                && (records[id].state == Succeeded <==> Snapshot(record.target) == Some(record.source))
                && (records[id].state == Failed <==> Snapshot(record.target) != Some(record.source) && id !in disk.temps)
                && (records[id] == record <==> Snapshot(record.target) != Some(record.source) && id in disk.temps)
    {
      hide Sound, Plays;
      var record := records[id];
      PlayOne(sha, Value(), Move.Look(id));
      if Final(record.state) {
        return Some(record.state);
      }
      if Snapshot(record.target) == Some(record.source) {
        records := records[id := record.(state := Succeeded)];
        return Some(Succeeded);
      }
      if id in disk.temps {
        return None;
      }
      records := records[id := record.(state := Failed)];
      proved := Some(Failed);
    }
  }

  lemma FinishBad(s: State, id: Id, error: UploadError, cleanup: Cleanup)
    requires id in s.active
    ensures FinishOf(s, id, Bad(error), Replied(Denied), cleanup) ==
            Closed(s, id, if Clears(cleanup, error == HashMismatch && s.active[id].handleOpen) then Failed else CleanupRequired,
                   Acts(cleanup.removal))
  {
  }

  lemma FinishIs(s: State, id: Id, check: Check, commit: Rename, cleanup: Cleanup)
    requires id in s.active && !check.Good?
    ensures FinishOf(s, id, check, commit, cleanup) == FinishOf(s, id, check, Replied(Denied), cleanup)
    ensures check.Stuck? ==> FinishOf(s, id, check, commit, cleanup) == Staged(s, id, Verifying)
  {
  }

  lemma FinishStaged(s: State, id: Id, commit: Rename, cleanup: Cleanup)
    requires id in s.active && id in s.temps
    ensures id in Staged(s, id, Verifying).active && id in Staged(s, id, Verifying).temps
    ensures FinishOf(Staged(s, id, Verifying), id, Good, commit, cleanup) == FinishOf(s, id, Good, commit, cleanup)
  {
    StageForgotten(s, id, Verifying, if Clears(cleanup, false) then Failed else CleanupRequired,
                   Acts(cleanup.removal), commit);
  }

  lemma FinishServed(s: State, id: Id, cleanup: Cleanup)
    requires id in s.active && id in s.temps
    ensures var t := FinishOf(s, id, Good, Replied(Served), cleanup);
            id !in t.active && id in t.records && t.records[id].state == Succeeded
  {
  }

  lemma FinishedTargets(s: State, id: Id, check: Check, commit: Rename, cleanup: Cleanup)
    requires id in s.active && (check.Good? ==> id in s.temps)
    ensures FinishOf(s, id, check, commit, cleanup).targets ==
            if check.Good? && Renames(commit) then s.targets[s.active[id].target := s.temps[id]] else s.targets
  {
  }

  // Everything announced has been received.
  predicate Received(upload: Upload, sha: Bytes -> Digest) {
    upload.offset == upload.count && sha(upload.received) == upload.source
  }

  // The file read back is as announced.
  predicate Intact(upload: Upload, file: Option<Bytes>, sha: Bytes -> Digest) {
    file.Some? && |file.value| == upload.count && sha(file.value) == upload.source
  }

  // What the checks answer, case by case.
  lemma CheckMeans(upload: Upload, file: Option<Bytes>, seen: Option<Digest>, sha: Bytes -> Digest,
                   handleCloses: bool, tempLook: Look, targetLook: Look)
    ensures var check := CheckOf(upload, file, seen, sha, handleCloses, tempLook, targetLook);
            var closed := !upload.handleOpen || handleCloses;
            && (check == Good <==>
                  && Received(upload, sha) && closed && tempLook == Seen && Intact(upload, file, sha)
                  && targetLook == Seen && seen == upload.snapshot)
            && (check == Bad(HashMismatch) <==> !Received(upload, sha))
            && (check == Bad(TempInvalid) <==>
                  && Received(upload, sha) && closed
                  && (tempLook == TimedOut || (tempLook == Seen && !Intact(upload, file, sha))))
            && (check == Bad(TargetChanged) <==>
                  && Received(upload, sha) && closed && tempLook == Seen && Intact(upload, file, sha)
                  && (targetLook == TimedOut || (targetLook == Seen && seen != upload.snapshot)))
            && (check == Stuck <==>
                  && Received(upload, sha)
                  && (!closed || tempLook == Thrown
                      || (tempLook == Seen && Intact(upload, file, sha) && targetLook == Thrown)))
  {
  }

  // ---------------------------------------------------------------- three rules

  // What an end on record should mean: that the temporary file of the operation is gone,
  // that the upload does not go on, and - `failed` or `cancelled` - that its target has not
  // been replaced.
  datatype Rule = NoFileLeft | NothingGoesOn | TargetUntouched

  predicate Holds(rule: Rule, s: State, id: Id) {
    match rule
    case NoFileLeft => id in s.begun && id in s.records && Final(s.records[id].state) ==> id !in s.temps
    case NothingGoesOn => id in s.active && id in s.records ==> !Final(s.records[id].state)
    case TargetUntouched =>
      id in s.records && (s.records[id].state == Failed || s.records[id].state == Cancelled) ==> id !in s.renamed
  }

  // The inspection of a record that is not over, and what it sees at the target.
  predicate Reads(sha: Bytes -> Digest, s: State, move: Move, id: Id, matching: bool) {
    && move == Move.Look(id) && id in s.records && !Final(s.records[id].state)
    && (SeenAt(sha, s.targets, s.records[id].target) == Some(s.records[id].source)) == matching
  }

  // Exactly when a move breaks a rule: the source's content is found at the target while the
  // temporary file is there; an end is stored for an upload still active; an upload is closed
  // as failed or cancelled whose temporary file was renamed away, or inspected after its
  // target was replaced once more.
  predicate Breaks(rule: Rule, sha: Bytes -> Digest, s: State, move: Move, id: Id) {
    match rule
    case NoFileLeft => Reads(sha, s, move, id, true) && id in s.begun && id in s.temps
    case NothingGoesOn =>
      id in s.active && (Reads(sha, s, move, id, true) || (Reads(sha, s, move, id, false) && id !in s.temps))
    case TargetUntouched =>
      || (move.Close? && move.id == id && Final(move.state) && id in s.active && id !in s.temps)
      || (Reads(sha, s, move, id, false) && id in s.renamed)
  }

  lemma LookKeepsIff(rule: Rule, sha: Bytes -> Digest, s: State, id: Id)
    requires InStep(s, id) && id in s.records && Holds(rule, s, id)
    ensures Holds(rule, Inspected(s, id, SeenAt(sha, s.targets, s.records[id].target)), id) <==>
            !Breaks(rule, sha, s, Move.Look(id), id)
  {
    hide Flatten, SeenAt;
  }

  lemma MoveKeepsIff(rule: Rule, sha: Bytes -> Digest, s: State, move: Move, id: Id)
    requires Sound(s) && Can(sha, s, move) && Holds(rule, s, id)
    ensures Holds(rule, Do(sha, s, move), id) <==> !Breaks(rule, sha, s, move, id)
  {
    SoundAt(s, id);
    if !About(move, id) && !move.Restart? {
      OthersStay(sha, s, move, id);
      hide Can, Do;
    } else {
      hide Fits, Flatten, Committed;
      hide Inspected, SeenAt;
      match move
      case Commit(_, commit) => CommittedParts(s, id, commit, id);
      case Look(_) => LookKeepsIff(rule, sha, s, id);
      case _ =>
    }
  }

  // A used identifier stays used, a definite end stays unless the upload still goes on, and
  // only a verified commit replaces a target: with what is stored, which are the accepted
  // bytes unless a write went wrong.
  lemma MoveKeepsEnds(sha: Bytes -> Digest, s: State, move: Move, id: Id)
    requires Sound(s) && Can(sha, s, move)
    ensures var t := Do(sha, s, move);
            && (id in s.records ==> id in t.records)
            && (id in s.records && Final(s.records[id].state) && Holds(NothingGoesOn, s, id) ==> t.records[id] == s.records[id])
  {
    SoundAt(s, id);
    if !About(move, id) && !move.Restart? {
      OthersStay(sha, s, move, id);
      hide Can, Do;
    }
  }

  lemma TargetsChangeOnlyVerified(sha: Bytes -> Digest, s: State, move: Move)
    requires Sound(s) && Can(sha, s, move) && !move.Others? && Do(sha, s, move).targets != s.targets
    ensures move.Commit? && Renames(move.commit) && move.id in s.active && move.id in s.temps
    ensures var upload, file := s.active[move.id], s.temps[move.id];
            && Do(sha, s, move).targets == s.targets[upload.target := file]
            && |file| == upload.count && sha(file) == upload.source
            && (move.id !in s.torn ==> move.id in s.accepted && file == Flatten(s.accepted[move.id]))
  {
    if move.Commit? {
      SoundAt(s, move.id);
    }
  }

  // The moment a record says `succeeded`, the target holds bytes with the source's digest.
  lemma SuccessIsTrue(sha: Bytes -> Digest, s: State, move: Move, id: Id)
    requires Sound(s) && Can(sha, s, move)
    requires id in Do(sha, s, move).records && Do(sha, s, move).records[id].state == Succeeded
    requires id in s.records ==> s.records[id].state != Succeeded
    ensures var t := Do(sha, s, move); SeenAt(sha, t.targets, t.records[id].target) == Some(t.records[id].source)
  {
    SoundAt(s, id);
    if !About(move, id) && !move.Restart? {
      OthersStay(sha, s, move, id);
      hide Can, Do;
    }
  }

  // ---------------------------------------------------------------- whole runs

  ghost predicate Run(sha: Bytes -> Digest, states: seq<State>, moves: seq<Move>) {
    && |states| == |moves| + 1 && New(states[0])
    && forall i {:trigger moves[i]} :: 0 <= i < |moves| ==>
         Can(sha, states[i], moves[i]) && states[i + 1] == Do(sha, states[i], moves[i])
  }

  lemma RunStep(sha: Bytes -> Digest, states: seq<State>, moves: seq<Move>, i: nat)
    requires Run(sha, states, moves) && i < |moves|
    ensures Can(sha, states[i], moves[i]) && states[i + 1] == Do(sha, states[i], moves[i])
  {
    hide Can, Do;
    assert moves[i] == moves[i];
  }

  lemma RunLonger(sha: Bytes -> Digest, states: seq<State>, moves: seq<Move>, move: Move)
    requires Run(sha, states, moves) && Can(sha, states[|moves|], move)
    ensures Run(sha, states + [Do(sha, states[|moves|], move)], moves + [move])
  {
    hide Can, Do, New;
    var further, all := states + [Do(sha, states[|moves|], move)], moves + [move];
    assert further[0] == states[0];
    forall i | 0 <= i < |all| ensures Can(sha, further[i], all[i]) && further[i + 1] == Do(sha, further[i], all[i]) {
      if i < |moves| {
        RunStep(sha, states, moves, i);
        assert all[i] == moves[i] && further[i] == states[i] && further[i + 1] == states[i + 1];
      }
    }
  }

  // Whatever the methods do prolongs a run.
  lemma {:induction false} RunGoesOn(sha: Bytes -> Digest, states: seq<State>, moves: seq<Move>, more: seq<Move>, t: State)
    returns (further: seq<State>)
    requires Run(sha, states, moves) && Plays(sha, states[|moves|], more, t)
    ensures Run(sha, further, moves + more) && states <= further && further[|further| - 1] == t
    decreases |more|
  {
    hide Run, Can, Do;
    RunLength(sha, states, moves);
    if more == [] {
      further := states;
      assert moves + more == moves;
    } else {
      var first := more[0];
      var prolonged := states + [Do(sha, states[|moves|], first)];
      RunLonger(sha, states, moves, first);
      hide Plays;
      further := RunGoesOn(sha, prolonged, moves + [first], more[1..], t);
      assert (moves + [first]) + more[1..] == moves + more;
    }
  }

  lemma RunLength(sha: Bytes -> Digest, states: seq<State>, moves: seq<Move>)
    requires Run(sha, states, moves)
    ensures |states| == |moves| + 1 > 0
  {
  }

  lemma {:induction false} RunIsSound(sha: Bytes -> Digest, states: seq<State>, moves: seq<Move>, n: nat)
    requires Run(sha, states, moves) && n < |states|
    ensures Sound(states[n])
  {
    if n > 0 {
      hide Can, Do, Sound;
      RunIsSound(sha, states, moves, n - 1);
      RunStep(sha, states, moves, n - 1);
      MoveIsSound(sha, states[n - 1], moves[n - 1]);
    }
  }

  lemma NewHolds(rule: Rule, s: State, id: Id)
    requires New(s)
    ensures Holds(rule, s, id)
  {
  }

  // A rule has held for an operation up to any moment of any run, if and only if no move has
  // broken it.
  lemma {:induction false} RuleHoldsIff(rule: Rule, sha: Bytes -> Digest, states: seq<State>, moves: seq<Move>, n: nat, id: Id)
    requires Run(sha, states, moves) && n < |states|
    ensures (forall i :: 0 <= i <= n ==> Holds(rule, states[i], id)) <==>
            (forall i :: 0 <= i < n ==> !Breaks(rule, sha, states[i], moves[i], id))
  {
    hide Holds, Breaks, Sound, Can, Do;
    if n == 0 {
      NewHolds(rule, states[0], id);
    } else {
      RuleHoldsIff(rule, sha, states, moves, n - 1, id);
      RunIsSound(sha, states, moves, n - 1);
      RunStep(sha, states, moves, n - 1);
      if Holds(rule, states[n - 1], id) {
        MoveKeepsIff(rule, sha, states[n - 1], moves[n - 1], id);
      }
    }
  }

  // A used identifier stays used, and as long as no end is stored for an active upload, what
  // has ended stays as it ended.
  lemma {:induction false} EndsStay(sha: Bytes -> Digest, states: seq<State>, moves: seq<Move>, m: nat, n: nat, id: Id)
    requires Run(sha, states, moves) && m <= n < |states| && id in states[m].records
    requires forall i :: 0 <= i < n ==> !Breaks(NothingGoesOn, sha, states[i], moves[i], id)
    ensures id in states[n].records
    ensures Final(states[m].records[id].state) ==> states[n].records[id] == states[m].records[id]
    decreases n - m
  {
    hide Holds, Breaks, Sound, Can, Do;
    if m < n {
      EndsStay(sha, states, moves, m, n - 1, id);
      RuleHoldsIff(NothingGoesOn, sha, states, moves, n - 1, id);
      RunIsSound(sha, states, moves, n - 1);
      RunStep(sha, states, moves, n - 1);
      MoveKeepsEnds(sha, states[n - 1], moves[n - 1], id);
    }
  }

  // In every run, each time a record comes to say `succeeded`, it is true.
  lemma SuccessesAreTrue(sha: Bytes -> Digest, states: seq<State>, moves: seq<Move>, n: nat, id: Id)
    requires Run(sha, states, moves) && n < |moves|
    requires id in states[n + 1].records && states[n + 1].records[id].state == Succeeded
    requires id in states[n].records ==> states[n].records[id].state != Succeeded
    ensures SeenAt(sha, states[n + 1].targets, states[n + 1].records[id].target) == Some(states[n + 1].records[id].source)
  {
    hide Sound, Can, Do;
    RunIsSound(sha, states, moves, n);
    RunStep(sha, states, moves, n);
    SuccessIsTrue(sha, states[n], moves[n], id);
  }

  // ---------------------------------------------------------------- broken rules

  const TIDY := Cleanup(true, Served, true)

  // A file is left: the target already has the content to be uploaded, a misplaced chunk ends
  // the upload, its file cannot be removed, and the record is inspected.
  method OverlookedFile(sha: Bytes -> Digest) returns (manager: UploadManager)
    ensures fresh(manager) && fresh(manager.disk)
    ensures 0 in manager.begun && 0 in manager.records && manager.records[0].state == Succeeded
    ensures 0 in manager.disk.temps && manager.disk.targets == map["f" := [7]]
  {
    hide Sound, Plays;
    var disk := new RemoteDisk(map["f" := [7]]);
    manager := new UploadManager(sha, disk);
    var began, _ := manager.Begin(0, "f", 1, sha([7]), Some(sha([7])), Seen, Served);
    var wrote, _ := manager.WriteChunk(0, 1, 0, [7], Written, [], Cleanup(true, Denied, true));
    var proved := manager.Inspect(0);
  }

  // An end does not stay: an upload onto its own content is inspected while it goes on, and
  // cancelled afterwards.
  method PreemptedUpload(sha: Bytes -> Digest) returns (manager: UploadManager, proved: Option<RecordState>)
    ensures fresh(manager) && fresh(manager.disk)
    ensures proved == Some(Succeeded) && 0 in manager.records && manager.records[0].state == Cancelled
  {
    hide Sound, Plays;
    var disk := new RemoteDisk(map["f" := [7]]);
    manager := new UploadManager(sha, disk);
    var began, _ := manager.Begin(0, "f", 1, sha([7]), Some(sha([7])), Seen, Served);
    proved := manager.Inspect(0);
    var aborted, _ := manager.Abort(0, TIDY);
  }

  datatype Second = FinishAgain | StrayChunk | Shutdown

  // An upload whose rename was done behind an exception is still active; a second finish, a
  // stray chunk and the shutdown each record an end that denies it.
  method DeniedReplacement(sha: Bytes -> Digest, second: Second) returns (manager: UploadManager)
    ensures fresh(manager) && fresh(manager.disk) && manager.disk.targets == map["f" := [7]]
    ensures 0 in manager.records && manager.records[0].state == if second.Shutdown? then Cancelled else Failed
  {
    hide Sound, Plays;
    manager := RenamedBehindException(sha);
    match second
    case FinishAgain => var finished, _, _ := manager.Finish(0, true, Seen, Seen, Replied(Served), TIDY);
    case StrayChunk => var wrote, _ := manager.WriteChunk(0, 1, 1, [7], Written, [], TIDY);
    case Shutdown => var aborted, _ := manager.Abort(0, TIDY);
  }

  method RenamedBehindException(sha: Bytes -> Digest) returns (manager: UploadManager)
    ensures fresh(manager) && fresh(manager.disk) && manager.sha == sha && Sound(manager.Value())
    ensures manager.disk.targets == map["f" := [7]] && 0 !in manager.disk.temps
    ensures manager.active == map[0 := Upload("f", None, 1, sha([7]), 1, 1, [7], false)]
  {
    hide Sound, Plays;
    manager := OneByteUpload(sha);
    var finished, _, _ := manager.Finish(0, true, Seen, Seen, Escaped(true), TIDY);
  }

  method OneByteUpload(sha: Bytes -> Digest) returns (manager: UploadManager)
    ensures fresh(manager) && fresh(manager.disk) && manager.sha == sha && Sound(manager.Value())
    ensures manager.disk.targets == map[] && manager.disk.temps == map[0 := [7]]
    ensures manager.active == map[0 := Upload("f", None, 1, sha([7]), 1, 1, [7], true)]
  {
    hide Sound, Plays;
    var disk := new RemoteDisk(map[]);
    manager := new UploadManager(sha, disk);
    var began, _ := manager.Begin(0, "f", 1, sha([7]), None, Seen, Served);
    var wrote, _ := manager.WriteChunk(0, 0, 0, [7], Written, [], TIDY);
    assert [] + [7] == [7];
  }
}
