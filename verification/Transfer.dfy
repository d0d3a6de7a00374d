/** Uploads and downloads over file systems in which any step may fail
    (crates/ssh-core/src/sftp.rs). */
module Transfer {
  import opened Wrappers
  import opened Text

  type Bytes = seq<byte>

  const TRANSFER_BUFFER_BYTES: nat := 256 * 1024

  datatype TransferError =
    | InvalidLocalFile | InvalidRemotePath | RemoteTargetExists | LocalTargetExists | IoError
    | IntegrityMismatch(expected: string, actual: string)

  datatype Summary = Summary(bytes: nat, sha256: string)

  function SummaryOf(digest: Bytes -> string, content: Bytes): Summary {
    Summary(|content|, digest(content))
  }

  ghost predicate Injective(digest: Bytes -> string) {
    forall a, b :: digest(a) == digest(b) ==> a == b
  }

  // Temporary names

  function TemporaryName(base: string, process: nat, sequence: nat): (r: string)
    ensures |r| > |base|
  {
    base + ".bx-ssh-part-" + Decimal(process) + ['-'] + Decimal(sequence)
  }

  lemma {:induction false} NumeralStarts(x: string, c: char, a: string, y: string, b: string)
    requires forall i :: 0 <= i < |a| ==> IsDigit(a[i])
    requires forall i :: 0 <= i < |b| ==> IsDigit(b[i])
    requires !IsDigit(c) && x + [c] + a == y + [c] + b
    ensures a == b && x == y
    decreases |a|
  {
    var whole, same := x + [c] + a, y + [c] + b;
    assert whole[|whole| - 1] == same[|same| - 1];
    if a != [] && b != [] {
      assert whole[..|whole| - 1] == x + [c] + a[..|a| - 1];
      assert same[..|same| - 1] == y + [c] + b[..|b| - 1];
      NumeralStarts(x, c, a[..|a| - 1], y, b[..|b| - 1]);
      assert a == a[..|a| - 1] + [whole[|whole| - 1]] && b == b[..|b| - 1] + [same[|same| - 1]];
    } else {
      assert whole[..|whole| - 1] == x && same[..|same| - 1] == y;
    }
  }

  /** No two transfers share a temporary name unless they agree on target, process and number. */
  lemma TemporaryNameInjective(base: string, process: nat, sequence: nat, base': string, process': nat, sequence': nat)
    requires TemporaryName(base, process, sequence) == TemporaryName(base', process', sequence')
    ensures base == base' && process == process' && sequence == sequence'
  {
    var part := ".bx-ssh-part";
    var stem, stem' := base + part + ['-'] + Decimal(process), base' + part + ['-'] + Decimal(process');
    assert ".bx-ssh-part-" == part + ['-'];
    assert TemporaryName(base, process, sequence) == stem + ['-'] + Decimal(sequence);
    assert TemporaryName(base', process', sequence') == stem' + ['-'] + Decimal(sequence');
    NumeralStarts(stem, '-', Decimal(sequence), stem', Decimal(sequence'));
    NumeralStarts(base + part, '-', Decimal(process), base' + part, Decimal(process'));
    DecimalInjective(sequence, sequence');
    DecimalInjective(process, process');
    assert (base + part)[..|base|] == base && (base' + part)[..|base'|] == base';
  }

  /** A local path as its directory and its last component; a root or `..` has no last component. */
  datatype LocalPath = LocalPath(directory: string, name: Option<string>)

  function TemporaryLocalPath(path: LocalPath, process: nat, sequence: nat): Result<LocalPath, TransferError> {
    if path.name.None? then Err(InvalidLocalFile)
    else Ok(path.(name := Some(TemporaryName(['.'] + path.name.value, process, sequence))))
  }

  predicate IsRemotePath(path: string) {
    !IsBlank(path) && '\0' !in path
  }

  // Faults

  /** What goes wrong in one operation that changes a file: whether it reports a failure, whether it
      then has its effect all the same, and what a write or flush stores in place of the data. */
  datatype Fault = Fault(fails: bool, takesEffect: bool, stored: Option<Bytes>)

  const NO_FAULT := Fault(false, true, None)

  /** Whether a read reports a failure, and how many bytes it asks the source for. */
  datatype Reading = Reading(fails: bool, count: nat)

  /** Everything the outside world decides in one transfer. A plain `true` reports a failure. */
  datatype Script = Script(
    isFile: bool,
    tryExists: bool,
    open: bool,
    create: Fault,
    readings: nat -> Reading,
    writes: nat -> Fault,
    close: bool,
    settle: Fault,
    sync: Fault,
    rename: Fault,
    reopen: bool,
    rereads: nat -> Reading,
    reclose: bool,
    remove: Fault)

  function HonestScript(): Script {
    Script(false, false, false, NO_FAULT, _ => Reading(false, TRANSFER_BUFFER_BYTES), _ => NO_FAULT,
           false, NO_FAULT, NO_FAULT, NO_FAULT, false, _ => Reading(false, TRANSFER_BUFFER_BYTES), false, NO_FAULT)
  }

  predicate Honest(f: Fault) {
    !f.fails && f.stored.None?
  }

  /** Nothing fails and everything is stored as it was written. */
  ghost predicate FaultFree(s: Script) {
    && !s.isFile && !s.tryExists && !s.open && !s.close && !s.reopen && !s.reclose
    && Honest(s.create) && Honest(s.settle) && Honest(s.sync) && Honest(s.rename)
    && forall i: nat :: !s.readings(i).fails && !s.rereads(i).fails && Honest(s.writes(i))
  }

  predicate HasEffect(f: Fault) {
    !f.fails || f.takesEffect
  }

  // What one operation does

  function Created<P>(files: map<P, Bytes>, path: P, possible: bool, f: Fault): (map<P, Bytes>, bool) {
    (if possible && HasEffect(f) then files[path := []] else files, possible && !f.fails)
  }

  function AfterWrite(before: Bytes, data: Bytes, f: Fault): Bytes {
    if f.stored.Some? then f.stored.value else if HasEffect(f) then before + data else before
  }

  function Settled(content: Bytes, f: Fault): Bytes {
    if f.stored.Some? then f.stored.value else content
  }

  function Renamed<P>(files: map<P, Bytes>, source: P, target: P, possible: bool, f: Fault): (map<P, Bytes>, bool)
    requires source in files
  {
    (if possible && HasEffect(f) then (files - {source})[target := files[source]] else files, possible && !f.fails)
  }

  function Removed<P>(files: map<P, Bytes>, path: P, f: Fault): map<P, Bytes> {
    if HasEffect(f) then files - {path} else files
  }

  /** At most a buffer of what follows `position`; nothing only at the end. */
  function Chunk(content: Bytes, position: nat, r: Reading): (chunk: Bytes)
    requires position <= |content|
    ensures |chunk| <= TRANSFER_BUFFER_BYTES && chunk <= content[position..]
    ensures chunk == [] <==> position == |content|
  {
    var left := |content| - position;
    var count := if 1 <= r.count <= left && r.count <= TRANSFER_BUFFER_BYTES then r.count
                 else if left > 0 then 1 else 0;
    content[position..position + count]
  }

  /** Whether every read up to the end goes through. */
  predicate ReadsThrough(source: Bytes, position: nat, i: nat, readings: nat -> Reading)
    requires position <= |source|
    decreases |source| - position
  {
    if readings(i).fails then false
    else if position == |source| then true
    else ReadsThrough(source, position + |Chunk(source, position, readings(i))|, i + 1, readings)
  }

  /** Whether the copy goes through, and what it leaves in the file that held `before`. */
  function Copied(source: Bytes, position: nat, i: nat, readings: nat -> Reading, writes: nat -> Fault,
      before: Bytes): (bool, Bytes)
    requires position <= |source|
    decreases |source| - position
  {
    if readings(i).fails then (false, before)
    else if position == |source| then (true, before)
    else
      var chunk := Chunk(source, position, readings(i));
      var after := AfterWrite(before, chunk, writes(i));
      if writes(i).fails then (false, after) else Copied(source, position + |chunk|, i + 1, readings, writes, after)
  }

  // File systems

  predicate SameAt<P>(before: map<P, Bytes>, after: map<P, Bytes>, path: P) {
    (path in after <==> path in before) && (path in before && path in after ==> after[path] == before[path])
  }

  ghost predicate SameBut<P(!new)>(before: map<P, Bytes>, after: map<P, Bytes>, touched: set<P>) {
    forall path :: path !in touched ==> SameAt(before, after, path)
  }

  /** A file system used by one transfer only. What is read is what is stored; everything else is
      up to the faults. */
  class FileSystem<P(==, !new)> {
    const directories: set<P>
    var files: map<P, Bytes>

    predicate Exists(path: P)
      reads this
    {
      path in files || path in directories
    }

    method Read(path: P, position: nat, r: Reading) returns (chunk: Result<Bytes, TransferError>)
      requires path in files && position <= |files[path]|
      ensures chunk == if r.fails then Err(IoError) else Ok(Chunk(files[path], position, r))
    {
      chunk := if r.fails then Err(IoError) else Ok(Chunk(files[path], position, r));
    }

    method Create(path: P, mayExist: bool, f: Fault) returns (ok: bool)
      modifies this
      ensures (files, ok) == Created(old(files), path, path !in directories && (mayExist || path !in old(files)), f)
    {
      var possible := path !in directories && (mayExist || path !in files);
      ok := possible && !f.fails;
      if possible && HasEffect(f) {
        files := files[path := []];
      }
    }

    method Write(path: P, data: Bytes, f: Fault) returns (ok: bool)
      requires path in files
      modifies this
      ensures files == old(files)[path := AfterWrite(old(files[path]), data, f)] && ok == !f.fails
    {
      files := files[path := AfterWrite(files[path], data, f)];
      ok := !f.fails;
    }

    /** Flushing, syncing or closing what was written. */
    method Settle(path: P, f: Fault) returns (ok: bool)
      requires path in files
      modifies this
      ensures files == old(files)[path := Settled(old(files[path]), f)] && ok == !f.fails
    {
      files := files[path := Settled(files[path], f)];
      ok := !f.fails;
    }

    method Rename(source: P, target: P, f: Fault) returns (ok: bool)
      requires source in files
      modifies this
      ensures (files, ok) == Renamed(old(files), source, target, target !in directories, f)
    {
      ok := target !in directories && !f.fails;
      if target !in directories && HasEffect(f) {
        files := (files - {source})[target := files[source]];
      }
    }

    method Remove(path: P, f: Fault)
      modifies this
      ensures files == Removed(old(files), path, f)
    {
      if HasEffect(f) {
        files := files - {path};
      }
    }
  }

  // Copying

  datatype Sink<!P(==, !new)> = Nowhere | Into(fs: FileSystem<P>, path: P, writes: nat -> Fault)

  ghost predicate Apart<P(!new), Q(!new)>(source: FileSystem<P>, sink: Sink<Q>) {
    sink.Into? ==> sink.fs as object != source as object
  }

  /** The summary is that of the whole source, whatever happened to what was written. */
  method CopyAndHash<P(!new), Q(!new)>(source: FileSystem<P>, path: P, readings: nat -> Reading, sink: Sink<Q>,
      digest: Bytes -> string)
    returns (r: Result<Summary, TransferError>)
    requires path in source.files && Apart(source, sink) && (sink.Into? ==> sink.path in sink.fs.files)
    modifies if sink.Into? then {sink.fs} else {}
    ensures r.Ok? ==> r.value == SummaryOf(digest, source.files[path])
    ensures r.Err? ==> r.error == IoError
    ensures sink.Nowhere? ==> r.Ok? == ReadsThrough(source.files[path], 0, 0, readings)
    ensures sink.Into? ==>
              var (ok, content) := Copied(source.files[path], 0, 0, readings, sink.writes,
                old(sink.fs.files[sink.path]));
              r.Ok? == ok && sink.fs.files == old(sink.fs.files)[sink.path := content]
  {
    var bytes: nat := 0;
    var hashed: Bytes := [];
    var i: nat := 0;
    ghost var content := source.files[path];
    while true
      invariant bytes == |hashed| && hashed <= content && source.files[path] == content
      invariant sink.Nowhere? ==> ReadsThrough(content, 0, 0, readings) == ReadsThrough(content, bytes, i, readings)
      invariant sink.Into? ==>
                  && sink.path in sink.fs.files
                  && sink.fs.files == old(sink.fs.files)[sink.path := sink.fs.files[sink.path]]
                  && Copied(content, 0, 0, readings, sink.writes, old(sink.fs.files[sink.path]))
                       == Copied(content, bytes, i, readings, sink.writes, sink.fs.files[sink.path])
      decreases |content| - bytes
    {
      var chunk := source.Read(path, bytes, readings(i));
      if chunk.Err? {
        return Err(IoError);
      }
      if chunk.value == [] {
        break;
      }
      if sink.Into? {
        var ok := sink.fs.Write(sink.path, chunk.value, sink.writes(i));
        if !ok {
          return Err(IoError);
        }
      }
      assert content == hashed + content[bytes..];
      hashed := hashed + chunk.value;
      bytes := bytes + |chunk.value|;
      i := i + 1;
    }
    assert hashed == content;
    r := Ok(Summary(bytes, digest(hashed)));
  }

  // One delivery: write the temporary file, rename it, read the target back

  /** A source and the place it is delivered to. A download creates its temporary file anew. */
  datatype Delivery<P> = Delivery(
    source: Bytes,
    digest: Bytes -> string,
    files: map<P, Bytes>,
    directories: set<P>,
    temporary: P,
    target: P,
    download: bool)

  predicate CanCreate<P>(d: Delivery<P>) {
    d.temporary !in d.directories && (d.download ==> d.temporary !in d.files)
  }

  /** The upload closes its file whatever the copy did; the download closes the source, then flushes
      and syncs, and stops at the first failure. */
  function FillOutcome(source: Bytes, download: bool, s: Script): (bool, Bytes) {
    var (copied, content) := Copied(source, 0, 0, s.readings, s.writes, []);
    if !download then (copied && !s.settle.fails, Settled(content, s.settle))
    else if !copied || s.close then (false, content)
    else if s.settle.fails then (false, Settled(content, s.settle))
    else (!s.sync.fails, Settled(Settled(content, s.settle), s.sync))
  }

  function Written<P>(d: Delivery<P>, s: Script): (bool, map<P, Bytes>) {
    var (files, ok) := Created(d.files, d.temporary, CanCreate(d), s.create);
    if !ok then (false, files)
    else
      var (filled, content) := FillOutcome(d.source, d.download, s);
      var full := files[d.temporary := content];
      (filled, if filled then full else Removed(full, d.temporary, s.remove))
  }

  function Reread(digest: Bytes -> string, content: Bytes, download: bool, s: Script): Result<Summary, TransferError> {
    if s.reopen || !ReadsThrough(content, 0, 0, s.rereads) || (!download && s.reclose) then Err(IoError)
    else Ok(SummaryOf(digest, content))
  }

  function Checked(sent: Summary, found: Result<Summary, TransferError>): Result<Summary, TransferError> {
    match found
    case Err(e) => Err(e)
    case Ok(summary) => if summary == sent then Ok(sent) else Err(IntegrityMismatch(sent.sha256, summary.sha256))
  }

  function Published<P>(d: Delivery<P>, files: map<P, Bytes>, s: Script)
    : (Result<Summary, TransferError>, map<P, Bytes>)
    requires d.temporary in files
  {
    var (moved, ok) := Renamed(files, d.temporary, d.target, d.target !in d.directories, s.rename);
    if !ok then (Err(IoError), Removed(moved, d.temporary, s.remove))
    else
      var r := Checked(SummaryOf(d.digest, d.source), Reread(d.digest, files[d.temporary], d.download, s));
      (r, if r.Ok? then moved else Removed(moved, d.target, s.remove))
  }

  function Delivered<P>(d: Delivery<P>, s: Script): (Result<Summary, TransferError>, map<P, Bytes>) {
    var (written, files) := Written(d, s);
    if written then Published(d, files, s) else (Err(IoError), files)
  }

  // What every delivery guarantees, under every script

  /** What has been checked before anything is created. */
  predicate Free<P>(d: Delivery<P>) {
    d.temporary != d.target && d.target !in d.files && d.target !in d.directories
  }

  lemma {:induction false} CopyIsWhole(source: Bytes, position: nat, i: nat, readings: nat -> Reading,
      writes: nat -> Fault, before: Bytes)
    requires position <= |source|
    requires forall j: nat :: !readings(j).fails && Honest(writes(j))
    ensures Copied(source, position, i, readings, writes, before) == (true, before + source[position..])
    decreases |source| - position
  {
    if position < |source| {
      var chunk := Chunk(source, position, readings(i));
      CopyIsWhole(source, position + |chunk|, i + 1, readings, writes, before + chunk);
      assert before + source[position..] == (before + chunk) + source[position + |chunk|..];
    } else {
      assert before + source[position..] == before;
    }
  }

  lemma {:induction false} ReadIsWhole(source: Bytes, position: nat, i: nat, readings: nat -> Reading)
    requires position <= |source| && forall j: nat :: !readings(j).fails
    ensures ReadsThrough(source, position, i, readings)
    decreases |source| - position
  {
    if position < |source| {
      ReadIsWhole(source, position + |Chunk(source, position, readings(i))|, i + 1, readings);
    }
  }

  /** Without a fault the delivery goes through. */
  lemma FaultFreeDelivers<P>(d: Delivery<P>, s: Script)
    requires Free(d) && CanCreate(d) && FaultFree(s)
    ensures Delivered(d, s) == (Ok(SummaryOf(d.digest, d.source)), (d.files - {d.temporary})[d.target := d.source])
  {
    CopyIsWhole(d.source, 0, 0, s.readings, s.writes, []);
    assert [] + d.source[0..] == d.source;
    assert FillOutcome(d.source, d.download, s) == (true, d.source);
    ReadIsWhole(d.source, 0, 0, s.rereads);
    MovedFiles(d.files, d.temporary, d.target, d.source);
  }

  lemma MovedFiles<P>(files: map<P, Bytes>, temporary: P, target: P, content: Bytes)
    requires temporary != target
    ensures files[temporary := []][temporary := content] - {temporary} == files - {temporary}
    ensures target !in files ==> (files - {temporary})[target := content] - {target} == files - {temporary}
    ensures (files - {temporary})[target := content] - {temporary} == (files - {temporary})[target := content]
  {
  }

  lemma WrittenTwice<P>(files: map<P, Bytes>, path: P, first: Bytes, second: Bytes)
    ensures files[path := first][path := second] == files[path := second]
  {
  }

  /** The creation had its effect although it reported a failure. */
  predicate HalfCreated<P>(d: Delivery<P>, s: Script) {
    CanCreate(d) && s.create.fails && s.create.takesEffect
  }

  predicate Starts<P>(d: Delivery<P>, s: Script) {
    CanCreate(d) && !s.create.fails
  }

  /** The temporary file was filled, so the rename is asked for. */
  predicate AsksToRename<P>(d: Delivery<P>, s: Script) {
    Starts(d, s) && FillOutcome(d.source, d.download, s).0
  }

  /** Everything a delivery can end in, by what the world did to it. */
  lemma DeliveryEnds<P>(d: Delivery<P>, s: Script)
    requires Free(d)
    ensures var (r, after) := Delivered(d, s);
            var content := FillOutcome(d.source, d.download, s).1;
            && (!AsksToRename(d, s) ==> r == Err(IoError))
            && (!Starts(d, s) ==> after == if HalfCreated(d, s) then d.files[d.temporary := []] else d.files)
            && (Starts(d, s) && !AsksToRename(d, s) ==>
                  after == if HasEffect(s.remove) then d.files - {d.temporary} else d.files[d.temporary := content])
            && (AsksToRename(d, s) && s.rename.fails ==>
                  && r == Err(IoError)
                  && after == if s.rename.takesEffect then (d.files - {d.temporary})[d.target := content]
                              else if HasEffect(s.remove) then d.files - {d.temporary}
                              else d.files[d.temporary := content])
            && (AsksToRename(d, s) && !s.rename.fails ==>
                  && r == Checked(SummaryOf(d.digest, d.source), Reread(d.digest, content, d.download, s))
                  && after == if r.Err? && HasEffect(s.remove) then d.files - {d.temporary}
                              else (d.files - {d.temporary})[d.target := content])
  {
    var content := FillOutcome(d.source, d.download, s).1;
    MovedFiles(d.files, d.temporary, d.target, content);
    assert d.files[d.temporary := []][d.temporary := content] == d.files[d.temporary := content];
  }

  // When a delivery succeeds

  /** The places in the source at which the reads of a copy start, up to its end. */
  ghost predicate Cuts(source: Bytes, readings: nat -> Reading, cuts: seq<nat>, i: nat) {
    && cuts != [] && cuts[|cuts| - 1] == |source|
    && forall j :: 0 <= j < |cuts| - 1 ==>
         cuts[j] < |source| && cuts[j + 1] == cuts[j] + |Chunk(source, cuts[j], readings(i + j))|
  }

  lemma FewerCuts(source: Bytes, readings: nat -> Reading, cuts: seq<nat>, i: nat)
    requires Cuts(source, readings, cuts, i) && |cuts| > 1
    ensures Cuts(source, readings, cuts[1..], i + 1)
  {
    forall j | 0 <= j < |cuts[1..]| - 1
      ensures cuts[1..][j] < |source|
      ensures cuts[1..][j + 1] == cuts[1..][j] + |Chunk(source, cuts[1..][j], readings(i + 1 + j))|
    {
      assert cuts[j + 2] == cuts[j + 1] + |Chunk(source, cuts[j + 1], readings(i + (j + 1)))|;
    }
  }

  /** Every copy has them. */
  lemma {:induction false} CutsExist(source: Bytes, readings: nat -> Reading, position: nat, i: nat)
      returns (cuts: seq<nat>)
    requires position <= |source|
    ensures Cuts(source, readings, cuts, i) && cuts[0] == position
    decreases |source| - position
  {
    if position == |source| {
      cuts := [position];
    } else {
      var chunk := Chunk(source, position, readings(i));
      var rest := CutsExist(source, readings, position + |chunk|, i + 1);
      cuts := [position] + rest;
      forall j | 0 <= j < |cuts| - 1
        ensures cuts[j] < |source| && cuts[j + 1] == cuts[j] + |Chunk(source, cuts[j], readings(i + j))|
      {
        assert readings(i + 0) == readings(i);
        if j > 0 {
          assert rest[j] == rest[j - 1] + |Chunk(source, rest[j - 1], readings(i + 1 + (j - 1)))|;
        }
      }
    }
  }

  /** The copy goes through exactly if no read it makes fails, the one that finds the end included, and no write. */
  lemma {:induction false} CopiedWhen(source: Bytes, readings: nat -> Reading, writes: nat -> Fault, before: Bytes,
      cuts: seq<nat>, i: nat)
    requires Cuts(source, readings, cuts, i)
    ensures cuts[0] <= |source|
    ensures Copied(source, cuts[0], i, readings, writes, before).0 <==>
              && (forall j :: i <= j < i + |cuts| ==> !readings(j).fails)
              && (forall j :: i <= j < i + |cuts| - 1 ==> !writes(j).fails)
    decreases |cuts|
  {
    if |cuts| > 1 {
      assert readings(i + 0) == readings(i);
      var chunk := Chunk(source, cuts[0], readings(i));
      var after := AfterWrite(before, chunk, writes(i));
      FewerCuts(source, readings, cuts, i);
      CopiedWhen(source, readings, writes, after, cuts[1..], i + 1);
      var rest := Copied(source, cuts[1..][0], i + 1, readings, writes, after).0;
      assert rest <==>
             && (forall j :: i + 1 <= j < i + |cuts| ==> !readings(j).fails)
             && (forall j :: i + 1 <= j < i + |cuts| - 1 ==> !writes(j).fails);
      assert Copied(source, cuts[0], i, readings, writes, before).0 <==>
             !readings(i).fails && !writes(i).fails && rest;
    }
  }

  /** Reading back goes through exactly if no read it makes fails. */
  lemma {:induction false} ReadsThroughWhen(source: Bytes, readings: nat -> Reading, cuts: seq<nat>, i: nat)
    requires Cuts(source, readings, cuts, i)
    ensures cuts[0] <= |source|
    ensures ReadsThrough(source, cuts[0], i, readings) <==> forall j :: i <= j < i + |cuts| ==> !readings(j).fails
    decreases |cuts|
  {
    if |cuts| > 1 {
      assert readings(i + 0) == readings(i);
      FewerCuts(source, readings, cuts, i);
      ReadsThroughWhen(source, readings, cuts[1..], i + 1);
    }
  }

  /** What a copy leaves after the file was flushed, synced or closed. */
  function LeftBy(copied: Bytes, download: bool, s: Script): Bytes {
    var settled := if s.settle.stored.Some? then s.settle.stored.value else copied;
    if download && s.sync.stored.Some? then s.sync.stored.value else settled
  }

  /** A delivery succeeds exactly if none of its operations reports a failure and what is read back sums up like
      what was sent. */
  lemma SucceedsWhen<P>(d: Delivery<P>, s: Script)
    requires Free(d)
    ensures var left := LeftBy(Copied(d.source, 0, 0, s.readings, s.writes, []).1, d.download, s);
            Delivered(d, s).0.Ok? <==>
              NothingReported(d, s) && |left| == |d.source| && d.digest(left) == d.digest(d.source)
  {
    DeliveryEnds(d, s);
  }

  /** No operation of the delivery reports a failure: creating, copying, closing, flushing and syncing, renaming, and
      reading back. */
  predicate NothingReported<P>(d: Delivery<P>, s: Script) {
    var (ok, copied) := Copied(d.source, 0, 0, s.readings, s.writes, []);
    && d.temporary !in d.directories && (d.download ==> d.temporary !in d.files) && !s.create.fails
    && ok && (d.download ==> !s.close) && !s.settle.fails && (d.download ==> !s.sync.fails)
    && !s.rename.fails
    && !s.reopen && ReadsThrough(LeftBy(copied, d.download, s), 0, 0, s.rereads) && (!d.download ==> !s.reclose)
  }

  /** A mismatch, with both hashes, is what a delivery ends in exactly if nothing is reported and yet what is read
      back differs; every other failure is an input or output error. */
  lemma MismatchWhen<P>(d: Delivery<P>, s: Script)
    requires Free(d)
    ensures var left := LeftBy(Copied(d.source, 0, 0, s.readings, s.writes, []).1, d.download, s);
            Delivered(d, s).0.Err? ==>
              Delivered(d, s).0.error ==
                if NothingReported(d, s) then IntegrityMismatch(d.digest(d.source), d.digest(left)) else IoError
  {
    DeliveryEnds(d, s);
  }

  /** Success: the target holds what was sent, the temporary file is gone, nothing else changed. With a hash
      that tells contents apart the target holds exactly the source's bytes. */
  lemma DeliveredOk<P(!new)>(d: Delivery<P>, s: Script)
    requires Free(d) && Delivered(d, s).0.Ok?
    ensures var (r, after) := Delivered(d, s);
            && CanCreate(d) && r.value == SummaryOf(d.digest, d.source)
            && d.target in after && after == (d.files - {d.temporary})[d.target := after[d.target]]
            && SummaryOf(d.digest, after[d.target]) == r.value
            && (Injective(d.digest) ==> after[d.target] == d.source)
  {
    DeliveryEnds(d, s);
  }

  /** Whatever happens, only the temporary file and the target are touched; and the target only once
      the rename was asked for. */
  lemma DeliveryFrame<P(!new)>(d: Delivery<P>, s: Script)
    requires Free(d)
    ensures SameBut(d.files, Delivered(d, s).1, {d.temporary, d.target})
    ensures !AsksToRename(d, s) ==> Delivered(d, s).0.Err? && SameAt(d.files, Delivered(d, s).1, d.target)
    ensures Delivered(d, s).0.Err? && Delivered(d, s).0.error.IntegrityMismatch? ==>
              AsksToRename(d, s) && !s.rename.fails
  {
    DeliveryEnds(d, s);
  }

  /** There is a file of the temporary name afterwards exactly when its creation took effect while reporting a
      failure, or nothing was created over one that was there, or the delivery got no further than the
      temporary file and removing it had no effect. */
  lemma TemporaryStays<P>(d: Delivery<P>, s: Script)
    requires Free(d)
    ensures d.temporary in Delivered(d, s).1 <==>
              || HalfCreated(d, s)
              || (!Starts(d, s) && d.temporary in d.files)
              || (Starts(d, s) && !(AsksToRename(d, s) && HasEffect(s.rename)) && !HasEffect(s.remove))
  {
    DeliveryEnds(d, s);
  }

  /** After an error the target is there exactly when the rename took effect while reporting a failure, or it
      succeeded and removing the target again had no effect. */
  lemma TargetStays<P>(d: Delivery<P>, s: Script)
    requires Free(d)
    ensures d.target in Delivered(d, s).1 <==>
              || Delivered(d, s).0.Ok?
              || (AsksToRename(d, s) && s.rename.fails && s.rename.takesEffect)
              || (AsksToRename(d, s) && !s.rename.fails && !HasEffect(s.remove))
  {
    DeliveryEnds(d, s);
  }

  /** An error leaves no trace exactly when it leaves no target and what was under the temporary name, which
      is nothing where no file had it. */
  lemma ErrorTraces<P(!new)>(d: Delivery<P>, s: Script)
    requires Free(d) && Delivered(d, s).0.Err?
    ensures Delivered(d, s).1 == d.files <==>
              d.target !in Delivered(d, s).1 && SameAt(d.files, Delivered(d, s).1, d.temporary)
    ensures d.temporary !in d.files ==>
              (SameAt(d.files, Delivered(d, s).1, d.temporary) <==> d.temporary !in Delivered(d, s).1)
  {
    DeliveryFrame(d, s);
  }

  /** A successful delivery changes nothing but the target exactly when there was no file of the temporary name. */
  lemma OkTouchesTargetOnly<P(!new)>(d: Delivery<P>, s: Script)
    requires Free(d) && Delivered(d, s).0.Ok?
    ensures SameBut(d.files, Delivered(d, s).1, {d.target}) <==> d.temporary !in d.files
  {
    DeliveredOk(d, s);
    if d.temporary in d.files {
      assert !SameAt(d.files, Delivered(d, s).1, d.temporary);
    }
  }

  /** One script under which the temporary file stays behind: its creation works but reports a failure. */
  lemma CreationLeftBehind<P>(d: Delivery<P>) returns (s: Script)
    requires Free(d) && CanCreate(d) && d.temporary !in d.files
    ensures Delivered(d, s).0.Err? && Delivered(d, s).1 == d.files[d.temporary := []]
  {
    s := HonestScript().(create := Fault(true, true, None));
    DeliveryEnds(d, s);
  }

  /** A fault-free upload over a file of the temporary name: it succeeds, and that file is gone. */
  lemma UploadTruncates<P(!new)>(d: Delivery<P>) returns (s: Script)
    requires Free(d) && CanCreate(d) && d.temporary in d.files
    ensures Delivered(d, s).0.Ok? && d.temporary !in Delivered(d, s).1
  {
    s := HonestScript();
    FaultFreeDelivers(d, s);
  }

  // Transfers

  /** The complaint an upload makes before it creates anything. */
  function UploadRefused(local: map<LocalPath, Bytes>, localDirectories: set<LocalPath>, path: LocalPath,
                         remote: map<string, Bytes>, remoteDirectories: set<string>, target:
                         string, s: Script): Option<TransferError> {
    if s.isFile || (path !in local && path !in localDirectories) then Some(IoError)
    else if path !in local then Some(InvalidLocalFile)
    else if !IsRemotePath(target) then Some(InvalidRemotePath)
    else if s.tryExists then Some(IoError)
    else if target in remote || target in remoteDirectories then Some(RemoteTargetExists)
    else if s.open then Some(IoError)
    else None
  }

  function DownloadRefused(remote: map<string, Bytes>, path: string,
                           local: map<LocalPath, Bytes>, localDirectories: set<LocalPath>, target:
                           LocalPath, s: Script): Option<TransferError> {
    if !IsRemotePath(path) then Some(InvalidRemotePath)
    else if s.tryExists then Some(IoError)
    else if target in local || target in localDirectories then Some(LocalTargetExists)
    else if target.name.None? then Some(InvalidLocalFile)
    else if s.open || path !in remote then Some(IoError)
    else None
  }

  /** An upload begins exactly if the local path can be looked at and is a file, the remote path is one, and nothing
      is known to be at the target. */
  lemma UploadBegins(local: map<LocalPath, Bytes>, localDirectories: set<LocalPath>, path: LocalPath,
      remote: map<string, Bytes>, remoteDirectories: set<string>, target: string, s: Script)
    ensures var refused := UploadRefused(local, localDirectories, path, remote, remoteDirectories, target, s);
            && (refused == None <==>
                  && !s.isFile && path in local && !IsBlank(target) && '\0' !in target
                  && !s.tryExists && target !in remote && target !in remoteDirectories && !s.open)
            && (refused == Some(RemoteTargetExists) ==> target in remote || target in remoteDirectories)
            && (refused == Some(InvalidLocalFile) ==> path !in local && path in localDirectories)
            && (refused == Some(InvalidRemotePath) ==> IsBlank(target) || '\0' in target)
            && (refused == Some(IoError) ==>
                  s.isFile || s.tryExists || s.open || (path !in local && path !in localDirectories))
            && (refused.Some? ==> refused.value in {IoError, InvalidLocalFile, InvalidRemotePath, RemoteTargetExists})
  {
  }

  lemma DownloadBegins(remote: map<string, Bytes>, path: string, local: map<LocalPath, Bytes>,
      localDirectories: set<LocalPath>, target: LocalPath, s: Script)
    ensures var refused := DownloadRefused(remote, path, local, localDirectories, target, s);
            && (refused == None <==>
                  && !IsBlank(path) && '\0' !in path && !s.tryExists && target !in local && target !in localDirectories
                  && target.name.Some? && !s.open && path in remote)
            && (refused == Some(LocalTargetExists) ==> target in local || target in localDirectories)
            && (refused == Some(InvalidLocalFile) ==> target.name == None)
            && (refused == Some(InvalidRemotePath) ==> IsBlank(path) || '\0' in path)
            && (refused == Some(IoError) ==> s.tryExists || s.open || path !in remote)
            && (refused.Some? ==> refused.value in {IoError, InvalidLocalFile, InvalidRemotePath, LocalTargetExists})
  {
  }

  /** The temporary file of a download is a hidden one beside its target, so the rename stays in one directory. */
  lemma TemporaryIsBeside(path: LocalPath, process: nat, sequence: nat)
    requires path.name.Some?
    ensures var temporary := TemporaryLocalPath(path, process, sequence);
            && temporary.Ok? && temporary.value.directory == path.directory && temporary.value.name.Some?
            && "." + path.name.value + ".bx-ssh-part-" <= temporary.value.name.value
            && temporary.value != path
    ensures forall target :: target + ".bx-ssh-part-" <= TemporaryName(target, process, sequence)
  {
    var name := path.name.value;
    forall target ensures target + ".bx-ssh-part-" <= TemporaryName(target, process, sequence) {
    }
    assert "." + name + ".bx-ssh-part-" <= TemporaryName(['.'] + name, process, sequence);
  }

  class SftpClient {
    const session: FileSystem<string>
    const process: nat
    const digest: Bytes -> string
    /** The process-wide number of the next temporary file. */
    var sequence: nat

    constructor (session: FileSystem<string>, process: nat, digest: Bytes -> string)
      ensures this.session == session && this.process == process && this.digest == digest && sequence == 1
    {
      this.session := session;
      this.process := process;
      this.digest := digest;
      sequence := 1;
    }

    method HashRemoteFile(path: string, s: Script) returns (r: Result<Summary, TransferError>)
      ensures r == if !IsRemotePath(path) then Err(InvalidRemotePath)
                   else if path !in session.files then Err(IoError)
                   else Reread(digest, session.files[path], false, s)
      ensures r.Ok? ==> path in session.files && r.value == SummaryOf(digest, session.files[path])
    {
      if !IsRemotePath(path) {
        return Err(InvalidRemotePath);
      }
      if s.reopen || path !in session.files {
        return Err(IoError);
      }
      r := CopyAndHash(session, path, s.rereads, Sink<string>.Nowhere, digest);
      if r.Ok? && s.reclose {
        r := Err(IoError);
      }
    }

    method HashLocalFile(local: FileSystem<LocalPath>, path: LocalPath, s: Script)
        returns (r: Result<Summary, TransferError>)
      ensures r == if path !in local.files then Err(IoError) else Reread(digest, local.files[path], true, s)
      ensures r.Ok? ==> path in local.files && r.value == SummaryOf(digest, local.files[path])
    {
      if s.reopen || path !in local.files {
        return Err(IoError);
      }
      r := CopyAndHash(local, path, s.rereads, Sink<string>.Nowhere, digest);
    }

    ghost function UploadOf(local: FileSystem<LocalPath>, localPath: LocalPath, remotePath: string): Delivery<string>
      requires localPath in local.files
      reads this, session, local
    {
      Delivery(local.files[localPath], digest, session.files, session.directories,
               TemporaryName(remotePath, process, sequence), remotePath, false)
    }

    /** The part of an upload that fills the temporary file. */
    method SendTemporary(local: FileSystem<LocalPath>, localPath: LocalPath, temporary: string,
        ghost d: Delivery<string>, s: Script)
      returns (r: Result<Summary, TransferError>)
      requires local as object != session as object && localPath in local.files && !d.download
      requires d.source == local.files[localPath] && d.files == session.files && d.directories == session.directories
      requires d.temporary == temporary
      modifies session
      ensures (r.Ok?, session.files) == Written(d, s)
      ensures r == if r.Ok? then Ok(SummaryOf(digest, d.source)) else Err(IoError)
    {
      var created := session.Create(temporary, true, s.create);
      if !created {
        return Err(IoError);
      }
      ghost var empty := session.files;
      r := CopyAndHash(local, localPath, s.readings, Into(session, temporary, s.writes), digest);
      ghost var copied := session.files[temporary];
      var settled := session.Settle(temporary, s.settle);
      WrittenTwice(empty, temporary, copied, Settled(copied, s.settle));
      if r.Err? || !settled {
        session.Remove(temporary, s.remove);
        return Err(IoError);
      }
    }

    /** An upload either is refused and changes nothing, or is the delivery of the local file. */
    method UploadFile(local: FileSystem<LocalPath>, localPath: LocalPath, remotePath: string, s: Script)
      returns (r: Result<Summary, TransferError>)
      requires local as object != session as object
      modifies this`sequence, session
      ensures var refused := UploadRefused(local.files, local.directories, localPath,
                                           old(session.files), session.directories, remotePath, s);
              if refused.Some?
              then r == Err(refused.value) && session.files == old(session.files)
              else localPath in local.files && sequence == old(sequence) + 1
                   && Free(old(UploadOf(local, localPath, remotePath)))
                   && (r, session.files) == Delivered(old(UploadOf(local, localPath, remotePath)), s)
      ensures r.Ok? ==>
                && localPath in local.files && !old(session.Exists(remotePath))
                && r.value == SummaryOf(digest, local.files[localPath])
                && remotePath in session.files
                && session.files == (old(session.files) - {TemporaryName(remotePath, process, old(sequence))})
                                      [remotePath := session.files[remotePath]]
                && SummaryOf(digest, session.files[remotePath]) == r.value
                && (Injective(digest) ==> session.files[remotePath] == local.files[localPath])
      ensures SameBut(old(session.files), session.files,
                {TemporaryName(remotePath, process, old(sequence)), remotePath})
      ensures old(sequence) <= sequence <= old(sequence) + 1
    {
      if s.isFile || !local.Exists(localPath) {
        return Err(IoError);
      }
      if localPath !in local.files {
        return Err(InvalidLocalFile);
      }
      if !IsRemotePath(remotePath) {
        return Err(InvalidRemotePath);
      }
      if s.tryExists {
        return Err(IoError);
      }
      if session.Exists(remotePath) {
        return Err(RemoteTargetExists);
      }
      var temporary := TemporaryName(remotePath, process, sequence);
      sequence := sequence + 1;
      if s.open {
        return Err(IoError);
      }
      ghost var d := old(UploadOf(local, localPath, remotePath));
      DeliveryFrame(d, s);
      if Delivered(d, s).0.Ok? {
        DeliveredOk(d, s);
      }
      r := SendTemporary(local, localPath, temporary, d, s);
      if r.Err? {
        return;
      }
      var sent := r.value;
      var moved := session.Rename(temporary, remotePath, s.rename);
      if !moved {
        session.Remove(temporary, s.remove);
        return Err(IoError);
      }
      r := HashRemoteFile(remotePath, s);
      if r.Err? {
        session.Remove(remotePath, s.remove);
        return;
      }
      if sent.bytes != r.value.bytes || sent.sha256 != r.value.sha256 {
        session.Remove(remotePath, s.remove);
        return Err(IntegrityMismatch(sent.sha256, r.value.sha256));
      }
    }

    ghost function DownloadOf(remotePath: string, local: FileSystem<LocalPath>,
        localPath: LocalPath): Delivery<LocalPath>
      requires remotePath in session.files && localPath.name.Some?
      reads this, session, local
    {
      Delivery(session.files[remotePath], digest, local.files, local.directories,
               TemporaryLocalPath(localPath, process, sequence).value, localPath, true)
    }

    /** Copy into the temporary file, close the source, flush and sync. */
    method FillTemporary(remotePath: string, local: FileSystem<LocalPath>, temporary: LocalPath, s: Script)
      returns (r: Result<Summary, TransferError>)
      requires local as object != session as object && remotePath in session.files
      requires temporary in local.files && local.files[temporary] == []
      modifies local
      ensures var (filled, content) := FillOutcome(session.files[remotePath], true, s);
              r.Ok? == filled && local.files == old(local.files)[temporary := content]
      ensures r == if r.Ok? then Ok(SummaryOf(digest, session.files[remotePath])) else Err(IoError)
    {
      r := CopyAndHash(session, remotePath, s.readings, Into(local, temporary, s.writes), digest);
      if r.Err? {
        return;
      }
      if s.close {
        return Err(IoError);
      }
      var flushed := local.Settle(temporary, s.settle);
      if !flushed {
        return Err(IoError);
      }
      var synced := local.Settle(temporary, s.sync);
      if !synced {
        return Err(IoError);
      }
    }

    /** The part of a download that fills the temporary file. */
    method ReceiveTemporary(remotePath: string, local: FileSystem<LocalPath>, temporary: LocalPath,
        ghost d: Delivery<LocalPath>, s: Script)
      returns (r: Result<Summary, TransferError>)
      requires local as object != session as object && remotePath in session.files && d.download
      requires d.source == session.files[remotePath] && d.files == local.files && d.directories == local.directories
      requires d.temporary == temporary
      modifies local
      ensures (r.Ok?, local.files) == Written(d, s)
      ensures r == if r.Ok? then Ok(SummaryOf(digest, d.source)) else Err(IoError)
    {
      var created := local.Create(temporary, false, s.create);
      if !created {
        return Err(IoError);
      }
      r := FillTemporary(remotePath, local, temporary, s);
      if r.Err? {
        local.Remove(temporary, s.remove);
      }
    }

    /** A download either is refused and changes nothing, or is the delivery of the remote file. */
    method DownloadFile(remotePath: string, local: FileSystem<LocalPath>, localPath: LocalPath, s: Script)
      returns (r: Result<Summary, TransferError>)
      requires local as object != session as object
      modifies this`sequence, local
      ensures var refused := DownloadRefused(session.files, remotePath, old(local.files), local.directories, localPath,
                s);
              if refused.Some?
              then r == Err(refused.value) && local.files == old(local.files)
              else remotePath in session.files && localPath.name.Some? && sequence == old(sequence) + 1
                   && Free(old(DownloadOf(remotePath, local, localPath)))
                   && (r, local.files) == Delivered(old(DownloadOf(remotePath, local, localPath)), s)
      ensures r.Ok? ==>
                && remotePath in session.files && !old(local.Exists(localPath)) && localPath.name.Some?
                && TemporaryLocalPath(localPath, process, old(sequence)).value !in old(local.files)
                && r.value == SummaryOf(digest, session.files[remotePath])
                && localPath in local.files && local.files == old(local.files)[localPath := local.files[localPath]]
                && SummaryOf(digest, local.files[localPath]) == r.value
                && (Injective(digest) ==> local.files[localPath] == session.files[remotePath])
      ensures var temporary := TemporaryLocalPath(localPath, process, old(sequence));
              if temporary.Err? then local.files == old(local.files)
              else SameBut(old(local.files), local.files, {temporary.value, localPath})
      ensures old(sequence) <= sequence <= old(sequence) + 1
    {
      if !IsRemotePath(remotePath) {
        return Err(InvalidRemotePath);
      }
      if s.tryExists {
        return Err(IoError);
      }
      if local.Exists(localPath) {
        return Err(LocalTargetExists);
      }
      var temporary := TemporaryLocalPath(localPath, process, sequence);
      if temporary.Err? {
        return Err(temporary.error);
      }
      sequence := sequence + 1;
      if s.open || remotePath !in session.files {
        return Err(IoError);
      }
      ghost var d := old(DownloadOf(remotePath, local, localPath));
      DeliveryFrame(d, s);
      if Delivered(d, s).0.Ok? {
        DeliveredOk(d, s);
        assert d.files - {d.temporary} == d.files;
      }
      r := ReceiveTemporary(remotePath, local, temporary.value, d, s);
      if r.Err? {
        return;
      }
      var sent := r.value;
      var moved := local.Rename(temporary.value, localPath, s.rename);
      if !moved {
        local.Remove(temporary.value, s.remove);
        return Err(IoError);
      }
      r := HashLocalFile(local, localPath, s);
      if r.Err? {
        local.Remove(localPath, s.remove);
        return;
      }
      if sent.bytes != r.value.bytes || sent.sha256 != r.value.sha256 {
        local.Remove(localPath, s.remove);
        return Err(IntegrityMismatch(sent.sha256, r.value.sha256));
      }
    }
  }
}
