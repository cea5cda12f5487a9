/**
 The resource store: resumable chunked upload with crash recovery, and offset-driven download.

 A request runs under the lock of its file, so the specification is a state machine of one file;
 the class below keeps all files in the four directories of the disk layout. A crash, a short write
 or an unavailable Redis is a `Fault` of the request: it stops the request after some of its effects.
 */
module ResourceStore {
  import opened Common
  import opened Runs

  const CHUNK_SIZE: nat := 32 * 1024
  const MAX_SIZE: nat := 20 * 1024 * 1024
  const WAVE_HEADER: nat := 44
  const MIN_PCM: nat := 32000
  const MAX_PCM: nat := 32000 * 60
  const AUDIO: int := 3
  const DOCUMENT: int := 2
  const IMAGE: int := 1

  type Bytes = seq<bv8>

  /** SHA-256 in hex and the PCM wave validator, as functions of a file's contents. */
  datatype Env = Env(hash: Bytes -> string, wave: Bytes -> bool)

  datatype Meta = Meta(uid: int, recipient: int, thread: int, media: int, size: nat, sha: string)

  /** The value of resource_ready_<id>. */
  datatype Mark = Mark(media: int, sender: int, group: bool, target: int, size: nat)

  /** All that is stored under one file id. */
  datatype File = File(meta: Option<Meta>, part: Option<Bytes>, done: Option<Bytes>, ready: Option<Mark>)

  datatype Error =
    | InvalidMetadata | GroupAccessDenied | AnotherUpload | InvalidWave | RedisUnavailable
    | NotInitialized | InvalidChunk | CannotOpen | WriteFailed | ChecksumMismatch
    | AccessDenied | NotReady | InvalidOffset

  datatype Reply = Ok(offset: nat, complete: bool) | OffsetMismatch(offset: nat) | Err(error: Error) | Crash

  datatype Fault =
    | NoFault
    | CrashFirst                 // before any effect; also a metadata write that throws
    | CrashAfterMeta             // metadata is on disk, nothing after it
    | OpenFails
    | ShortWrite(kept: nat)      // only some bytes reach the part file, by a crash or a failed write
    | CrashAfterAppend           // the chunk is on disk, neither checked nor renamed
    | RedisDown                  // everything but the ready mark

  /** `member` is the group authorizer's verdict. */
  datatype InitRequest =
    InitRequest(uid: int, recipient: int, thread: int, media: int, size: nat, sha: string, member: bool)

  /** `data` is the decoded chunk, empty if the encoding is malformed. */
  datatype ChunkRequest = ChunkRequest(uid: int, member: bool, offset: nat, data: Bytes)

  // ------------------------------------------------------------ specification

  predicate HexDigit(c: char) {
    '0' <= c <= '9' || 'a' <= c <= 'f' || 'A' <= c <= 'F'
  }

  predicate ValidMetadata(r: InitRequest) {
    && r.thread >= 0
    && (if r.thread > 0 then r.recipient == 0 else r.recipient > 0 && r.recipient != r.uid)
    && r.media in {IMAGE, DOCUMENT, AUDIO}
    && 0 < r.size <= MAX_SIZE
    && (r.media == AUDIO ==> WAVE_HEADER + MIN_PCM <= r.size <= WAVE_HEADER + MAX_PCM)
    && |r.sha| == 64 && forall i :: 0 <= i < |r.sha| ==> HexDigit(r.sha[i])
  }

  function Declared(r: InitRequest): Meta {
    Meta(r.uid, r.recipient, r.thread, r.media, r.size, r.sha)
  }

  function MarkOf(m: Meta): Mark {
    Mark(m.media, m.uid, m.thread > 0, if m.thread > 0 then m.thread else m.recipient, m.size)
  }

  /** A full part file is what was declared. */
  predicate Genuine(env: Env, m: Meta, bytes: Bytes) {
    |bytes| == m.size && env.hash(bytes) == m.sha && (m.media == AUDIO ==> env.wave(bytes))
  }

  function Length(part: Option<Bytes>): nat {
    if part.Some? then |part.value| else 0
  }

  /** A full part found by an init: finish the interrupted rename or drop it. */
  function Recovered(env: Env, f: File, m: Meta): File {
    if f.done.Some? || f.part.None? || |f.part.value| < m.size then f
    else if Genuine(env, m, f.part.value) then f.(part := None, done := f.part)
    else f.(part := None)
  }

  /** The tail of an init: a finished file is announced, an unfinished one reports its length. */
  function Announced(env: Env, f: File, m: Meta, fault: Fault): (File, Reply) {
    if f.done.None? then (f, Ok(Length(f.part), false))
    else if m.media == AUDIO && !env.wave(f.done.value) then (f, Err(InvalidWave))
    else if fault.RedisDown? then (f, Err(RedisUnavailable))
    else (f.(ready := Some(MarkOf(m))), Ok(m.size, true))
  }

  function AfterInit(env: Env, f: File, r: InitRequest, fault: Fault): (File, Reply) {
    var m := Declared(r);
    if !ValidMetadata(r) then (f, Err(InvalidMetadata))
    else if r.thread > 0 && !r.member then (f, Err(GroupAccessDenied))
    else if fault.CrashFirst? then (f, Crash)
    else if f.meta.Some? && f.meta.value != m then (f, Err(AnotherUpload))
    else if fault.CrashAfterMeta? then (f.(meta := Some(m)), Crash)
    else Announced(env, Recovered(env, f.(meta := Some(m)), m), m, fault)
  }

  /** The chunk that filled the file has been written: check it, then rename and announce. */
  function Completed(env: Env, f: File, m: Meta, full: Bytes, fault: Fault): (File, Reply) {
    if env.hash(full) != m.sha then (f.(part := None), Err(ChecksumMismatch))
    else if m.media == AUDIO && !env.wave(full) then (f.(part := None), Err(InvalidWave))
    else if fault.RedisDown? then (f.(part := None, done := Some(full)), Err(RedisUnavailable))
    else (f.(part := None, done := Some(full), ready := Some(MarkOf(m))), Ok(|full|, true))
  }

  function Appended(part: Option<Bytes>, data: Bytes): Bytes {
    (if part.Some? then part.value else []) + data
  }

  /** A chunk that continues the part file exactly where it ends. */
  function AfterAppend(env: Env, f: File, m: Meta, data: Bytes, fault: Fault): (File, Reply) {
    var full := Appended(f.part, data);
    if |data| == 0 || |data| > CHUNK_SIZE || |full| > m.size then (f, Err(InvalidChunk))
    else if fault.OpenFails? then (f, Err(CannotOpen))
    else if fault.ShortWrite? then
      (f.(part := Some(Appended(f.part, data[..Min(fault.kept, |data|)]))), Err(WriteFailed))
    else if fault.CrashAfterAppend? then (f.(part := Some(full)), Crash)
    else if |full| < m.size then (f.(part := Some(full)), Ok(|full|, false))
    else Completed(env, f, m, full, fault)
  }

  function AfterChunk(env: Env, f: File, r: ChunkRequest, fault: Fault): (File, Reply) {
    if f.meta.None? || f.meta.value.uid != r.uid then (f, Err(NotInitialized))
    else
      var m := f.meta.value;
      if m.thread > 0 && !r.member then (f, Err(GroupAccessDenied))
      else if fault.CrashFirst? then (f, Crash)
      else if f.done.Some? then
        (if fault.RedisDown? then (f, Err(RedisUnavailable)) else (f.(ready := Some(MarkOf(m))), Ok(m.size, true)))
      else if r.offset != Length(f.part) then (f, OffsetMismatch(Length(f.part)))
      else AfterAppend(env, f, m, r.data, fault)
  }

  datatype DownloadReply = Data(offset: nat, size: nat, sha: string, data: Bytes, complete: bool) | Denied(error: Error)

  predicate MayDownload(f: File, uid: int, member: bool) {
    f.meta.Some? &&
    if f.meta.value.thread > 0 then member else uid == f.meta.value.uid || uid == f.meta.value.recipient
  }

  /** `seekg` and `read` deliver what the file holds from the offset on, at most the buffer's size. */
  function Download(f: File, uid: int, member: bool, offset: nat): DownloadReply {
    if !MayDownload(f, uid, member) then Denied(AccessDenied)
    else if f.done.None? then Denied(NotReady)
    else
      var size, file := f.meta.value.size, f.done.value;
      if offset > size then Denied(InvalidOffset)
      else
        var from := Min(offset, |file|);
        var data := file[from..Min(from + Min(CHUNK_SIZE, size - offset), |file|)];
        Data(offset + |data|, size, f.meta.value.sha, data, offset + |data| == size)
  }

  // -------------------------------------------------------------------- runs

  datatype Event = Init(init: InitRequest, fault: Fault) | Chunk(chunk: ChunkRequest, fault: Fault)

  function After(env: Env, f: File, e: Event): (File, Reply) {
    match e
    case Init(r, fault) => AfterInit(env, f, r, fault)
    case Chunk(r, fault) => AfterChunk(env, f, r, fault)
  }

  ghost function Steps(env: Env): (File, Event, File) -> bool {
    (f: File, e: Event, f': File) => f' == After(env, f, e).0
  }

  const ABSENT := File(None, None, None, None)

  ghost predicate FileRun(env: Env, fs: seq<File>, es: seq<Event>) {
    IsRun(Steps(env), fs, es) && fs[0] == ABSENT
  }

  /** A finished file is genuine and replaces its part; only finished files are marked ready. */
  predicate Sound(env: Env, f: File) {
    && (f.meta.None? ==> f == ABSENT)
    && (f.part.Some? ==> |f.part.value| <= f.meta.value.size && f.done.None?)
    && (f.done.Some? ==> Genuine(env, f.meta.value, f.done.value))
    && (f.ready.Some? ==> f.done.Some? && f.ready.value == MarkOf(f.meta.value))
    && (f.meta.Some? ==> 0 < f.meta.value.size <= MAX_SIZE)
  }

  lemma InitKeepsSound(env: Env, f: File, r: InitRequest, fault: Fault)
    requires Sound(env, f)
    ensures Sound(env, AfterInit(env, f, r, fault).0)
  {
  }

  lemma ChunkKeepsSound(env: Env, f: File, r: ChunkRequest, fault: Fault)
    requires Sound(env, f)
    ensures Sound(env, AfterChunk(env, f, r, fault).0)
  {
  }

  lemma SoundStep(env: Env, f: File, e: Event)
    requires Sound(env, f)
    ensures Sound(env, After(env, f, e).0)
  {
    match e
    case Init(r, fault) => InitKeepsSound(env, f, r, fault);
    case Chunk(r, fault) => ChunkKeepsSound(env, f, r, fault);
  }

  /**
   Whatever is sent and wherever requests crash: a finished file always has the declared size and
   hash (and is a wave, if audio), and only a finished file is ever announced as ready, to the
   recipient or group, under the sender, kind and size that were declared.
   */
  lemma FinishedFilesAreGenuine(env: Env, fs: seq<File>, es: seq<Event>, i: nat)
    requires FileRun(env, fs, es) && i < |fs|
    ensures Sound(env, fs[i])
    ensures fs[i].done.Some? ==>
              && fs[i].meta.Some? && fs[i].part.None?
              && var m, file := fs[i].meta.value, fs[i].done.value;
              |file| == m.size && env.hash(file) == m.sha && (m.media == 3 ==> env.wave(file))
    ensures fs[i].ready.Some? ==>
              && fs[i].done.Some?
              && var m, mark := fs[i].meta.value, fs[i].ready.value;
              && mark.media == m.media && mark.sender == m.uid && mark.size == m.size
              && (mark.group <==> m.thread > 0) && mark.target == if m.thread > 0 then m.thread else m.recipient
  {
    forall f: File, e: Event, f': File | Sound(env, f) && Steps(env)(f, e, f') ensures Sound(env, f') {
      SoundStep(env, f, e);
    }
    Always(Steps(env), f => Sound(env, f), fs, es, i);
  }

  /** Metadata, a finished file and a ready mark are never changed or removed. */
  predicate Keeps(f: File, f': File) {
    && (f.meta.Some? ==> f'.meta == f.meta)
    && (f.done.Some? ==> f'.done == f.done)
    && (f.ready.Some? ==> f'.ready == f.ready)
  }

  lemma KeepsStep(env: Env, f: File, e: Event)
    requires Sound(env, f)
    ensures Keeps(f, After(env, f, e).0)
  {
  }

  lemma FinishedFilesNeverChange(env: Env, fs: seq<File>, es: seq<Event>, i: nat, j: nat)
    requires FileRun(env, fs, es) && i <= j < |fs|
    ensures Keeps(fs[i], fs[j])
  {
    forall f: File, e: Event, f': File | Sound(env, f) && Steps(env)(f, e, f') ensures Sound(env, f') && Keeps(f, f') {
      SoundStep(env, f, e);
      KeepsStep(env, f, e);
    }
    Across(Steps(env), f => Sound(env, f), Keeps, fs, es, i, j);
  }

  // ----------------------------------------------------------- honest uploads

  /** The metadata, if any, declares the length of `data`. */
  predicate Sized(f: File, data: Bytes) {
    f.meta.Some? ==> f.meta.value.size == |data|
  }

  predicate Slice(data: Bytes, offset: nat, piece: Bytes) {
    offset + |piece| <= |data| ==> piece == data[offset..offset + |piece|]
  }

  /** Every chunk of the uploader is cut out of `data` at its own offset; others may send anything. */
  predicate Honest(f: File, e: Event, data: Bytes) {
    e.Chunk? && f.meta.Some? && e.chunk.uid == f.meta.value.uid ==> Slice(data, e.chunk.offset, e.chunk.data)
  }

  predicate PrefixOf(f: File, data: Bytes) {
    (f.part.Some? ==> f.part.value <= data) && (f.done.Some? ==> f.done.value == data)
  }

  lemma SliceExtends(part: Option<Bytes>, piece: Bytes, data: Bytes)
    requires part.Some? ==> part.value <= data
    requires Slice(data, Length(part), piece) && Length(part) + |piece| <= |data|
    ensures forall n: nat :: n <= |piece| ==> Appended(part, piece[..n]) <= data
    ensures Appended(part, piece) <= data
  {
    var had := if part.Some? then part.value else [];
    assert had == data[..|had|];
    assert had + piece == data[..|had| + |piece|];
    forall n: nat | n <= |piece| ensures had + piece[..n] <= data {
      assert had + piece[..n] == (had + piece)[..|had| + n];
    }
  }

  lemma HonestAppend(env: Env, f: File, m: Meta, piece: Bytes, fault: Fault, data: Bytes)
    requires f.done.None? && PrefixOf(f, data) && m.size == |data| && Slice(data, Length(f.part), piece)
    ensures PrefixOf(AfterAppend(env, f, m, piece, fault).0, data)
  {
    if Length(f.part) + |piece| <= |data| {
      SliceExtends(f.part, piece, data);
    }
  }

  lemma HonestStep(env: Env, f: File, e: Event, data: Bytes)
    requires Sound(env, f) && Sized(f, data) && Honest(f, e, data) && PrefixOf(f, data)
    requires Sized(After(env, f, e).0, data)
    ensures PrefixOf(After(env, f, e).0, data)
  {
    if e.Chunk? && f.meta.Some? && f.done.None? {
      if e.chunk.uid == f.meta.value.uid && e.chunk.offset == Length(f.part) {
        HonestAppend(env, f, f.meta.value, e.chunk.data, e.fault, data);
      }
    }
  }

  ghost function HonestSteps(env: Env, data: Bytes): (File, Event, File) -> bool {
    (f: File, e: Event, f': File) => f' == After(env, f, e).0 && Honest(f, e, data) && Sized(f, data) && Sized(f', data)
  }

  /**
   If every chunk of the uploader is a slice of one file of the declared size, then under any
   duplicates, reorderings, foreign requests, short writes and crashes the part file is a prefix
   of it and the finished file is exactly it.
   */
  lemma HonestUpload(env: Env, fs: seq<File>, es: seq<Event>, data: Bytes, i: nat)
    requires IsRun(HonestSteps(env, data), fs, es) && fs[0] == ABSENT && i < |fs|
    ensures PrefixOf(fs[i], data)
  {
    var inv := (f: File) => Sound(env, f) && PrefixOf(f, data);
    forall f: File, e: Event, f': File | inv(f) && HonestSteps(env, data)(f, e, f') ensures inv(f') {
      SoundStep(env, f, e);
      HonestStep(env, f, e, data);
    }
    Always(HonestSteps(env, data), inv, fs, es, i);
  }

  /** What the store holds of the file. */
  function Stored(f: File): Bytes {
    if f.done.Some? then f.done.value else if f.part.Some? then f.part.value else []
  }

  predicate NoLess(f: File, f': File) {
    Stored(f) <= Stored(f')
  }

  /** As above, and the uploader declared the digest of `data`. */
  ghost function GenuineSteps(env: Env, data: Bytes): (File, Event, File) -> bool {
    (f: File, e: Event, f': File) =>
      && f' == After(env, f, e).0 && Honest(f, e, data)
      && (f.meta.Some? ==> Genuine(env, f.meta.value, data)) && (f'.meta.Some? ==> Genuine(env, f'.meta.value, data))
  }

  lemma AppendLosesNothing(env: Env, f: File, m: Meta, piece: Bytes, fault: Fault, data: Bytes)
    requires f.done.None? && PrefixOf(f, data) && Genuine(env, m, data) && Slice(data, Length(f.part), piece)
    ensures NoLess(f, AfterAppend(env, f, m, piece, fault).0)
  {
    if Length(f.part) + |piece| <= |data| {
      SliceExtends(f.part, piece, data);
      assert |Appended(f.part, piece)| == |data| ==> Appended(f.part, piece) == data;
    }
  }

  lemma InitLosesNothing(env: Env, f: File, r: InitRequest, fault: Fault, data: Bytes)
    requires Sound(env, f) && PrefixOf(f, data) && (f.meta.Some? ==> Genuine(env, f.meta.value, data))
    ensures NoLess(f, AfterInit(env, f, r, fault).0)
  {
    if f.part.Some? && |f.part.value| == |data| {
      assert f.part.value == data;
    }
  }

  lemma GenuineStep(env: Env, f: File, e: Event, data: Bytes)
    requires Sound(env, f) && PrefixOf(f, data) && GenuineSteps(env, data)(f, e, After(env, f, e).0)
    ensures NoLess(f, After(env, f, e).0)
  {
    match e
    case Init(r, fault) => InitLosesNothing(env, f, r, fault, data);
    case Chunk(r, fault) =>
      if f.meta.Some? && f.done.None? && r.uid == f.meta.value.uid && r.offset == Length(f.part) {
        AppendLosesNothing(env, f, f.meta.value, r.data, fault, data);
      }
  }

  /**
   No byte of an honest upload of the declared file is ever lost again: whatever crashes, repeats or
   interferes, what the store holds only grows, so every acknowledged offset stays valid.
   */
  lemma NothingStoredIsLost(env: Env, fs: seq<File>, es: seq<Event>, data: Bytes, i: nat, j: nat)
    requires IsRun(GenuineSteps(env, data), fs, es) && fs[0] == ABSENT && i <= j < |fs|
    ensures Stored(fs[i]) <= Stored(fs[j]) <= data
  {
    var inv := (f: File) => Sound(env, f) && PrefixOf(f, data);
    forall f: File, e: Event, f': File | inv(f) && GenuineSteps(env, data)(f, e, f') ensures inv(f') && NoLess(f, f') {
      SoundStep(env, f, e);
      HonestStep(env, f, e, data);
      GenuineStep(env, f, e, data);
    }
    Always(GenuineSteps(env, data), inv, fs, es, j);
    Across(GenuineSteps(env, data), inv, NoLess, fs, es, i, j);
  }

  // ----------------------------------------------------------------- replies

  /**
   A successful init reply says where to go on: complete exactly if the file is finished (and then
   announced), otherwise with an offset below the size, so that one more chunk always fits.
   */
  lemma InitReply(env: Env, f: File, r: InitRequest, fault: Fault)
    requires Sound(env, f) && AfterInit(env, f, r, fault).1.Ok?
    ensures var (f', reply) := AfterInit(env, f, r, fault);
            && f'.meta == Some(Declared(r))
            && reply.complete == f'.done.Some?
            && (reply.complete ==> reply.offset == r.size && f'.ready == Some(MarkOf(Declared(r))))
            && (!reply.complete ==> reply.offset == Length(f'.part) < r.size)
  {
  }

  /** The wave check of an init can never fail: a finished audio file was checked before its rename. */
  lemma InitWaveCheckNeverFires(env: Env, f: File, r: InitRequest, fault: Fault)
    requires Sound(env, f)
    ensures AfterInit(env, f, r, fault).1 != Err(InvalidWave)
  {
  }

  /** Acknowledged bytes are on disk: the reply's offset is the new length, complete means finished and announced. */
  lemma ChunkReply(env: Env, f: File, r: ChunkRequest, fault: Fault)
    requires Sound(env, f) && AfterChunk(env, f, r, fault).1.Ok?
    ensures var (f', reply) := AfterChunk(env, f, r, fault);
            && f'.meta == f.meta
            && reply.complete == f'.done.Some? == f'.ready.Some?
            && reply.offset == (if f'.done.Some? then |f'.done.value| else Length(f'.part))
            && (reply.complete <==> reply.offset == f'.meta.value.size)
  {
  }

  /** Metadata the store takes: one receiver, a known kind, a size within its limits and a digest in hex. */
  predicate Plausible(r: InitRequest) {
    && (if r.thread > 0 then r.recipient == 0 else r.thread == 0 && r.recipient > 0 && r.recipient != r.uid)
    && (r.media == 1 || r.media == 2 || r.media == 3)
    && 1 <= r.size <= 20971520
    && (r.media == 3 ==> 32044 <= r.size <= 1920044)
    && |r.sha| == 64
    && (forall i :: 0 <= i < 64 ==> '0' <= r.sha[i] <= '9' || 'a' <= r.sha[i] <= 'f' || 'A' <= r.sha[i] <= 'F')
  }

  /** The upload is new, or was declared by the same uploader in exactly the same way. */
  predicate Consistent(f: File, r: InitRequest) {
    f.meta.Some? ==>
      var m := f.meta.value;
      && m.uid == r.uid && m.recipient == r.recipient && m.thread == r.thread
      && m.media == r.media && m.size == r.size && m.sha == r.sha
  }

  /** What is on disk is kept: a part to go on with, a finished file, or a full part, which becomes one if genuine. */
  predicate Kept(env: Env, f: File, r: InitRequest, f': File) {
    if f.done.Some? then f'.done == f.done && f'.part.None?
    else if Length(f.part) < r.size then f'.part == f.part && f'.done.None?
    else
      && f.part.Some? && f'.part.None?
      && f'.done == if env.hash(f.part.value) == r.sha && (r.media == 3 ==> env.wave(f.part.value))
                    then f.part else None
  }

  /**
   An undisturbed init succeeds exactly for plausible metadata, of a group only for a member, that do
   not contradict an earlier init of the file. Each refusal has its own reason and changes nothing.
   */
  lemma InitSucceedsExactly(env: Env, f: File, r: InitRequest)
    requires Sound(env, f)
    ensures var (f', reply) := AfterInit(env, f, r, NoFault);
            && (reply.Ok? <==> Plausible(r) && (r.thread > 0 ==> r.member) && Consistent(f, r))
            && (reply == Err(InvalidMetadata) <==> !Plausible(r))
            && (reply == Err(GroupAccessDenied) <==> Plausible(r) && r.thread > 0 && !r.member)
            && (reply == Err(AnotherUpload) <==>
                  Plausible(r) && (r.thread > 0 ==> r.member) && !Consistent(f, r))
            && (!reply.Ok? ==> f' == f)
            && (reply.Ok? ==> f'.meta == Some(Meta(r.uid, r.recipient, r.thread, r.media, r.size, r.sha)))
            && (reply.Ok? ==> Kept(env, f, r, f'))
  {
    assert Consistent(f, r) <==> f.meta.None? || f.meta.value == Declared(r);
    assert Plausible(r) <==> ValidMetadata(r);
  }

  /** The chunk is the next one of its file, of a decent length, and fills the file only with the right bytes. */
  predicate Continues(env: Env, f: File, data: Bytes)
    requires f.meta.Some?
  {
    var had := if f.part.Some? then f.part.value else [];
    && 1 <= |data| <= 32768 && |had| + |data| <= f.meta.value.size
    && (|had| + |data| == f.meta.value.size ==>
          env.hash(had + data) == f.meta.value.sha && (f.meta.value.media == 3 ==> env.wave(had + data)))
  }

  /**
   An undisturbed chunk is acknowledged exactly if it comes from the uploader, who must still be a
   member of the group, and the file is finished already or the chunk continues it where it ends; it is
   then appended and nothing else, or finishes the file. One that does not start where the file ends is
   told that place. Anybody else's chunk changes nothing.
   */
  lemma ChunkSucceedsExactly(env: Env, f: File, r: ChunkRequest)
    requires Sound(env, f)
    ensures var (f', reply) := AfterChunk(env, f, r, NoFault);
            && (reply.Ok? <==>
                  && f.meta.Some? && f.meta.value.uid == r.uid && (f.meta.value.thread > 0 ==> r.member)
                  && (f.done.Some? || (r.offset == Length(f.part) && Continues(env, f, r.data))))
            && (reply.Ok? && f.done.None? ==>
                  var all := (if f.part.Some? then f.part.value else []) + r.data;
                  if |all| < f.meta.value.size then f' == f.(part := Some(all))
                  else f'.done == Some(all) && f'.part.None? && f'.ready.Some?)
            && (reply.OffsetMismatch? <==>
                  && f.meta.Some? && f.meta.value.uid == r.uid && (f.meta.value.thread > 0 ==> r.member)
                  && f.done.None? && r.offset != Length(f.part))
            && (reply.OffsetMismatch? ==> f' == f && reply.offset == if f.part.Some? then |f.part.value| else 0)
            && (f' != f ==> f.meta.Some? && f.meta.value.uid == r.uid && (f.meta.value.thread > 0 ==> r.member))
            && (!reply.Ok? && f' != f ==> f' == f.(part := None) && Length(f.part) + |r.data| == f.meta.value.size)
  {
    if f.meta.Some? && f.done.None? && r.offset == Length(f.part) {
      assert Appended(f.part, r.data) == (if f.part.Some? then f.part.value else []) + r.data;
    }
  }

  // ------------------------------------------------------- upload and download

  predicate Describes(env: Env, r: InitRequest, data: Bytes) {
    ValidMetadata(r) && (r.thread > 0 ==> r.member) && Genuine(env, Declared(r), data)
  }

  /** After an init that asks for chunks, or after a chunk of a genuine file. */
  predicate Underway(f: File, r: InitRequest, reply: Reply, data: Bytes) {
    && PrefixOf(f, data) && f.meta == Some(Declared(r))
    && reply.Ok? && reply.complete == f.done.Some? == f.ready.Some?
    && (!reply.complete ==> reply.offset == Length(f.part) < |data|)
  }

  lemma Started(env: Env, f: File, r: InitRequest, data: Bytes)
    requires Sound(env, f) && PrefixOf(f, data) && Describes(env, r, data)
    requires f.meta.Some? ==> f.meta.value == Declared(r)
    ensures var (f', reply) := AfterInit(env, f, r, NoFault); Sound(env, f') && Underway(f', r, reply, data)
  {
    InitKeepsSound(env, f, r, NoFault);
    InitReply(env, f, r, NoFault);
  }

  /** One chunk of the client, from the offset of the last reply. */
  method SendNext(env: Env, f: File, r: InitRequest, offset: nat, data: Bytes) returns (f': File, reply: Reply)
    requires Sound(env, f) && Describes(env, r, data) && Underway(f, r, Ok(offset, false), data)
    ensures Sound(env, f') && Underway(f', r, reply, data) && reply.offset == Min(offset + CHUNK_SIZE, |data|)
  {
    var end := Min(offset + CHUNK_SIZE, |data|);
    var c := ChunkRequest(r.uid, r.member, offset, data[offset..end]);
    NextChunk(env, f, c, data);
    var (f1, answer) := AfterChunk(env, f, c, NoFault);
    return f1, answer;
  }

  /** A client that resumes from the offsets of the replies, with as few chunks as a whole file may need. */
  method Upload(env: Env, f0: File, r: InitRequest, data: Bytes) returns (f: File, chunks: nat)
    requires Sound(env, f0) && PrefixOf(f0, data) && Describes(env, r, data)
    requires f0.meta.Some? ==> f0.meta.value == Declared(r)
    ensures f == File(Some(Declared(r)), None, Some(data), Some(MarkOf(Declared(r))))
    ensures CHUNK_SIZE * chunks < |data| + CHUNK_SIZE
  {
    Started(env, f0, r, data);
    var (f1, reply) := AfterInit(env, f0, r, NoFault);
    f, chunks := f1, 0;
    while !reply.complete
      invariant Sound(env, f) && Underway(f, r, reply, data)
      invariant CHUNK_SIZE * chunks <= if reply.complete then |data| + CHUNK_SIZE - 1 else reply.offset
      decreases if reply.complete then 0 else |data| - reply.offset
    {
      f, reply := SendNext(env, f, r, reply.offset, data);
      chunks := chunks + 1;
    }
  }

  /** The next slice of a genuine file is accepted, and the last one finishes the file. */
  lemma NextChunk(env: Env, f: File, c: ChunkRequest, data: Bytes)
    requires Sound(env, f) && PrefixOf(f, data) && f.meta.Some? && f.done.None? && Genuine(env, f.meta.value, data)
    requires c.uid == f.meta.value.uid && (f.meta.value.thread > 0 ==> c.member)
    requires c.offset == Length(f.part) < |data| && 0 < |c.data| <= CHUNK_SIZE && c.offset + |c.data| <= |data|
    requires c.data == data[c.offset..c.offset + |c.data|]
    ensures var (f', reply) := AfterChunk(env, f, c, NoFault);
            && Sound(env, f') && PrefixOf(f', data) && f'.meta == f.meta
            && reply == Ok(c.offset + |c.data|, c.offset + |c.data| == |data|)
            && reply.complete == f'.done.Some? == f'.ready.Some?
            && (!reply.complete ==> Length(f'.part) == reply.offset)
  {
    ChunkKeepsSound(env, f, c, NoFault);
    SliceExtends(f.part, c.data, data);
    assert |Appended(f.part, c.data)| == |data| ==> Appended(f.part, c.data) == data;
  }

  /**
   Data goes out exactly to the members of the group, or else to the two parties, of a finished file,
   from an offset within it, and is the next 32 KiB of the file or what is left of it.
   */
  lemma DownloadAccess(env: Env, f: File, uid: int, member: bool, offset: nat)
    requires Sound(env, f)
    ensures Download(f, uid, member, offset).Data? <==>
              && f.meta.Some? && f.done.Some? && offset <= f.meta.value.size
              && if f.meta.value.thread > 0 then member else uid in {f.meta.value.uid, f.meta.value.recipient}
    ensures var d := Download(f, uid, member, offset);
            d.Data? ==>
              && d.offset == Min(offset + 32768, |f.done.value|) && d.data == f.done.value[offset..d.offset]
              && d.size == |f.done.value| && d.sha == f.meta.value.sha && (d.complete <==> d.offset == d.size)
    ensures Download(f, uid, member, offset) == Denied(AccessDenied) <==>
              f.meta.None? ||
              if f.meta.value.thread > 0 then !member else uid !in {f.meta.value.uid, f.meta.value.recipient}
  {
  }

  /** A client that follows the offsets of the replies gets the finished file back, whole. */
  method Fetch(env: Env, f: File, uid: int, member: bool) returns (data: Bytes)
    requires Sound(env, f) && f.done.Some?
    requires if f.meta.value.thread > 0 then member else uid in {f.meta.value.uid, f.meta.value.recipient}
    ensures data == f.done.value
    ensures |data| == f.meta.value.size && env.hash(data) == f.meta.value.sha
  {
    DownloadAccess(env, f, uid, member, 0);
    var reply := Download(f, uid, member, 0);
    data := reply.data;
    while !reply.complete
      invariant reply.Data? && reply.offset <= |f.done.value| && data == f.done.value[..reply.offset]
      invariant reply.complete <==> reply.offset == |f.done.value|
      decreases |f.done.value| - reply.offset
    {
      var offset := reply.offset;
      DownloadAccess(env, f, uid, member, offset);
      reply := Download(f, uid, member, offset);
      data := data + reply.data;
    }
  }

  // -------------------------------------------------- the spelling of the hash

  predicate LowerHex(s: string) {
    |s| == 64 && forall i :: 0 <= i < |s| ==> '0' <= s[i] <= '9' || 'a' <= s[i] <= 'f'
  }

  /** The server prints digests in lower case. */
  ghost predicate PrintsLower(env: Env) {
    forall data :: LowerHex(env.hash(data))
  }

  function LowerDigit(c: char): char {
    if 'A' <= c <= 'F' then (c as int + 32) as char else c
  }

  /** Two spellings of one digest. */
  predicate SameDigest(s: string, t: string) {
    |s| == |t| && forall i :: 0 <= i < |s| ==> LowerDigit(s[i]) == LowerDigit(t[i])
  }

  lemma LowerIsUnique(s: string, t: string)
    requires LowerHex(s) && LowerHex(t) && SameDigest(s, t)
    ensures s == t
  {
    assert forall i :: 0 <= i < |s| ==> LowerDigit(s[i]) == s[i] && LowerDigit(t[i]) == t[i];
  }

  /**
   An init accepts a digest in either case, but compares it exactly. A client that holds the file
   and declares its digest can finish the upload exactly if it spells the digest in lower case.
   */
  lemma SpellingDecides(env: Env, r: InitRequest, data: Bytes)
    requires PrintsLower(env) && ValidMetadata(r) && |data| == r.size && (r.media == AUDIO ==> env.wave(data))
    requires SameDigest(r.sha, env.hash(data))
    ensures Genuine(env, Declared(r), data) <==> LowerHex(r.sha)
  {
    if LowerHex(r.sha) {
      LowerIsUnique(r.sha, env.hash(data));
    }
  }

  /** Whatever is sent, an upload declared in another spelling is never finished and never announced. */
  lemma OtherSpellingNeverFinishes(env: Env, fs: seq<File>, es: seq<Event>, i: nat)
    requires PrintsLower(env) && FileRun(env, fs, es) && i < |fs|
    requires fs[i].meta.Some? && !LowerHex(fs[i].meta.value.sha)
    ensures fs[i].done.None? && fs[i].ready.None?
  {
    FinishedFilesAreGenuine(env, fs, es, i);
  }

  /** Yet its init is accepted, and the chunk that fills the file throws everything away. */
  lemma OtherSpellingStartsOver(env: Env, r: InitRequest, f: File, c: ChunkRequest)
    requires PrintsLower(env) && ValidMetadata(r) && !LowerHex(r.sha) && (r.thread > 0 ==> r.member && c.member)
    requires f.meta == Some(Declared(r)) && f.done.None? && c.uid == r.uid
    requires c.offset == Length(f.part) && 0 < |c.data| <= CHUNK_SIZE && c.offset + |c.data| == r.size
    ensures AfterInit(env, ABSENT, r, NoFault).1 == Ok(0, false)
    ensures AfterChunk(env, f, c, NoFault) == (f.(part := None), Err(ChecksumMismatch))
  {
    assert LowerHex(env.hash(Appended(f.part, c.data)));
  }

  // ------------------------------------------------------------ disk layout

  datatype Dir = Root | Groups | Audio | Files

  /** A file id inside one of the four directories. */
  datatype Path = Path(dir: Dir, id: string)

  function DirOf(m: Meta): Dir {
    if m.media == DOCUMENT then Files else if m.media == AUDIO then Audio else if m.thread > 0 then Groups else Root
  }

  /** Where the metadata of an id is found: the directories are probed in a fixed order. */
  function Probe(metas: map<Path, Meta>, id: string): (p: Path)
    ensures p.id == id
  {
    if Path(Files, id) in metas then Path(Files, id)
    else if Path(Audio, id) in metas then Path(Audio, id)
    else if Path(Groups, id) in metas then Path(Groups, id)
    else Path(Root, id)
  }

  function Lookup<K, V>(m: map<K, V>, k: K): Option<V> {
    if k in m then Some(m[k]) else None
  }

  class Store {
    const env: Env
    var metas: map<Path, Meta>
    var parts: map<Path, Bytes>
    var dones: map<Path, Bytes>
    var ready: map<string, Mark>

    function MetaPath(id: string): Path
      reads this
    {
      Probe(metas, id)
    }

    function View(id: string): File
      reads this
    {
      var p := MetaPath(id);
      File(Lookup(metas, p), Lookup(parts, p), Lookup(dones, p), Lookup(ready, id))
    }

    /** An id has metadata in one directory only, the one its kind belongs to, and its data lies beside it. */
    ghost predicate OneHome()
      reads this
    {
      && (forall p :: p in metas ==> p.dir == DirOf(metas[p]) && p == MetaPath(p.id))
      && (forall p :: p in parts || p in dones ==> p in metas)
    }

    ghost predicate Valid()
      reads this
    {
      OneHome() && forall id :: Sound(env, View(id))
    }

    constructor (env: Env)
      ensures Valid() && this.env == env && forall id :: View(id) == ABSENT
    {
      this.env := env;
      metas, parts, dones, ready := map[], map[], map[], map[];
    }

    method WriteMeta(id: string, m: Meta)
      requires OneHome() && MetaPath(id) !in metas
      modifies this`metas
      ensures OneHome() && MetaPath(id) == Path(DirOf(m), id) && metas == old(metas)[MetaPath(id) := m]
      ensures forall x :: x != id ==> View(x) == old(View(x))
      ensures View(id) == old(View(id)).(meta := Some(m))
    {
      assert forall d :: Path(d, id) !in metas;
      metas := metas[Path(DirOf(m), id) := m];
    }

    /** Nothing but the named file changed. */
    twostate predicate OnlyFile(id: string)
      reads this
    {
      forall x :: x != id ==> View(x) == old(View(x))
    }

    method WritePart(id: string, bytes: Bytes)
      requires OneHome() && MetaPath(id) in metas
      modifies this`parts
      ensures OneHome() && OnlyFile(id) && View(id) == old(View(id)).(part := Some(bytes))
    {
      parts := parts[MetaPath(id) := bytes];
    }

    method RemovePart(id: string)
      requires OneHome()
      modifies this`parts
      ensures OneHome() && OnlyFile(id) && View(id) == old(View(id)).(part := None)
    {
      parts := parts - {MetaPath(id)};
    }

    method RenamePart(id: string)
      requires OneHome() && MetaPath(id) in parts
      modifies this`parts, this`dones
      ensures OneHome() && OnlyFile(id)
      ensures View(id) == old(View(id)).(part := None, done := old(View(id)).part)
    {
      dones := dones[MetaPath(id) := parts[MetaPath(id)]];
      parts := parts - {MetaPath(id)};
    }

    method MarkReady(id: string, m: Meta, fault: Fault) returns (ok: bool)
      requires OneHome()
      modifies this`ready
      ensures OneHome() && OnlyFile(id) && ok == !fault.RedisDown?
      ensures View(id) == if ok then old(View(id)).(ready := Some(MarkOf(m))) else old(View(id))
    {
      ok := !fault.RedisDown?;
      if ok {
        ready := ready[id := MarkOf(m)];
      }
    }

    method RecoverPart(id: string, m: Meta)
      requires OneHome() && MetaPath(id) in metas
      modifies this`parts, this`dones
      ensures OneHome() && OnlyFile(id) && View(id) == Recovered(env, old(View(id)), m)
    {
      var p := MetaPath(id);
      if p !in dones && p in parts && |parts[p]| >= m.size {
        if |parts[p]| == m.size && env.hash(parts[p]) == m.sha && (m.media != AUDIO || env.wave(parts[p])) {
          RenamePart(id);
        } else {
          RemovePart(id);
        }
      }
    }

    method Announce(id: string, m: Meta, fault: Fault) returns (reply: Reply)
      requires OneHome() && MetaPath(id) in metas
      modifies this`ready
      ensures OneHome() && OnlyFile(id) && (View(id), reply) == Announced(env, old(View(id)), m, fault)
    {
      var p := MetaPath(id);
      var complete := p in dones;
      if complete && m.media == AUDIO && !env.wave(dones[p]) {
        return Err(InvalidWave);
      }
      if complete {
        var ok := MarkReady(id, m, fault);
        return if ok then Ok(m.size, true) else Err(RedisUnavailable);
      }
      return Ok(if p in parts then |parts[p]| else 0, false);
    }

    method InitEffects(id: string, m: Meta, fault: Fault) returns (reply: Reply)
      requires OneHome() && (MetaPath(id) in metas ==> metas[MetaPath(id)] == m)
      modifies this
      ensures OneHome() && OnlyFile(id)
      ensures (View(id), reply) == if fault.CrashAfterMeta? then (old(View(id)).(meta := Some(m)), Crash)
                                   else Announced(env, Recovered(env, old(View(id)).(meta := Some(m)), m), m, fault)
    {
      if MetaPath(id) !in metas {
        WriteMeta(id, m);
      }
      if fault.CrashAfterMeta? {
        return Crash;
      }
      RecoverPart(id, m);
      assert View(id).meta.Some?;
      reply := Announce(id, m, fault);
    }

    method UploadInit(id: string, r: InitRequest, fault: Fault) returns (reply: Reply)
      requires Valid()
      modifies this
      ensures Valid() && OnlyFile(id)
      ensures (View(id), reply) == AfterInit(env, old(View(id)), r, fault)
    {
      ghost var f := View(id);
      if !ValidMetadata(r) {
        return Err(InvalidMetadata);
      }
      if r.thread > 0 && !r.member {
        return Err(GroupAccessDenied);
      }
      if fault.CrashFirst? {
        return Crash;
      }
      var p := MetaPath(id);
      if p in metas && metas[p] != Declared(r) {
        return Err(AnotherUpload);
      }
      reply := InitEffects(id, Declared(r), fault);
      InitKeepsSound(env, f, r, fault);
    }

    /** The last chunk is on disk. */
    method CompletePart(id: string, m: Meta, fault: Fault) returns (reply: Reply)
      requires OneHome() && View(id).meta == Some(m) && View(id).part.Some? && View(id).done.None?
      modifies this`parts, this`dones, this`ready
      ensures OneHome() && OnlyFile(id)
      ensures (View(id), reply) == Completed(env, old(View(id)), m, old(View(id)).part.value, fault)
    {
      var full := parts[MetaPath(id)];
      if env.hash(full) != m.sha {
        RemovePart(id);
        return Err(ChecksumMismatch);
      }
      if m.media == AUDIO && !env.wave(full) {
        RemovePart(id);
        return Err(InvalidWave);
      }
      RenamePart(id);
      var ok := MarkReady(id, m, fault);
      return if ok then Ok(|full|, true) else Err(RedisUnavailable);
    }

    method AppendPart(id: string, m: Meta, data: Bytes, fault: Fault) returns (reply: Reply)
      requires OneHome() && View(id).meta == Some(m) && View(id).done.None?
      modifies this`parts, this`dones, this`ready
      ensures OneHome() && OnlyFile(id)
      ensures (View(id), reply) == AfterAppend(env, old(View(id)), m, data, fault)
    {
      var p := MetaPath(id);
      var had := if p in parts then parts[p] else [];
      if |data| == 0 || |data| > CHUNK_SIZE || |had| + |data| > m.size {
        return Err(InvalidChunk);
      }
      if fault.OpenFails? {
        return Err(CannotOpen);
      }
      if fault.ShortWrite? {
        WritePart(id, had + data[..Min(fault.kept, |data|)]);
        return Err(WriteFailed);
      }
      WritePart(id, had + data);
      if fault.CrashAfterAppend? {
        return Crash;
      }
      if |had| + |data| < m.size {
        return Ok(|had| + |data|, false);
      }
      reply := CompletePart(id, m, fault);
    }

    method UploadChunk(id: string, r: ChunkRequest, fault: Fault) returns (reply: Reply)
      requires Valid()
      modifies this
      ensures Valid() && OnlyFile(id)
      ensures (View(id), reply) == AfterChunk(env, old(View(id)), r, fault)
    {
      ghost var f := View(id);
      var p := MetaPath(id);
      if p !in metas || metas[p].uid != r.uid {
        return Err(NotInitialized);
      }
      var m := metas[p];
      if m.thread > 0 && !r.member {
        return Err(GroupAccessDenied);
      }
      if fault.CrashFirst? {
        return Crash;
      }
      if p in dones {
        var ok := MarkReady(id, m, fault);
        reply := if ok then Ok(m.size, true) else Err(RedisUnavailable);
      } else if r.offset != Length(if p in parts then Some(parts[p]) else None) {
        reply := OffsetMismatch(Length(if p in parts then Some(parts[p]) else None));
      } else {
        reply := AppendPart(id, m, r.data, fault);
      }
      ChunkKeepsSound(env, f, r, fault);
    }
  }
}
