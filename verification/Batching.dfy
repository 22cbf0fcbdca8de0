/**
 Which prepared files travel together: the limits of a push batch, and the estimate of its
 commit manifest that decides between the chunked protocol and direct uploads.
 */
module Batching {
  import opened Prelude
  import opened Chunks
  import opened Planning

  const PUSH_BATCH_MAX_FILES := 32
  const PUSH_BATCH_MAX_BYTES := 64 * 1024 * 1024
  const PUSH_BATCH_MAX_CHUNKS := 8192
  const BLOB_COMMIT_SAFE_REQUEST_BODY_BYTES := 30 * 1024 * 1024
  const U64_MAX := 0xFFFF_FFFF_FFFF_FFFF

  /** `saturating_add` on 64 bits. */
  function SatAdd(a: nat, b: nat): nat {
    Saturated(a + b)
  }

  function Saturated(n: nat): nat {
    if n <= U64_MAX then n else U64_MAX
  }

  /** `estimated_chunk_count`. */
  function EstimatedChunkCount(byteLen: nat, chunkSize: nat): nat {
    if byteLen == 0 then 0
    else Saturated(CeilDiv(byteLen, if chunkSize == 0 then 1 else chunkSize))
  }

  function TotalBytes(files: seq<PendingPushFile>): nat {
    if files == [] then 0 else TotalBytes(files[..|files| - 1]) + files[|files| - 1].fileSize
  }

  function TotalChunks(files: seq<PendingPushFile>, config: BlobConfig): nat {
    if files == [] then 0
    else TotalChunks(files[..|files| - 1], config) + EstimatedChunkCount(files[|files| - 1].fileSize, config.chunkSize)
  }

  // ---------------------------------------------------------------------------------------
  // The batch
  // ---------------------------------------------------------------------------------------

  /** A batch the server should be able to swallow: few files, and little data unless it is a single one. */
  ghost predicate WithinLimits(files: seq<PendingPushFile>, config: BlobConfig) {
    |files| <= 32 && (|files| > 1 ==> TotalBytes(files) <= 67_108_864 && TotalChunks(files, config) <= 8192)
  }

  /** `should_flush_before`, on the exact totals. */
  predicate FlushBefore(files: seq<PendingPushFile>, file: PendingPushFile, config: BlobConfig) {
    files != [] &&
    (|files| + 1 > PUSH_BATCH_MAX_FILES ||
     TotalBytes(files) + file.fileSize > PUSH_BATCH_MAX_BYTES ||
     TotalChunks(files, config) + EstimatedChunkCount(file.fileSize, config.chunkSize) > PUSH_BATCH_MAX_CHUNKS)
  }

  /** `should_flush_now`, on the exact totals. */
  predicate FlushNow(files: seq<PendingPushFile>, config: BlobConfig) {
    |files| >= PUSH_BATCH_MAX_FILES ||
    TotalBytes(files) >= PUSH_BATCH_MAX_BYTES ||
    TotalChunks(files, config) >= PUSH_BATCH_MAX_CHUNKS
  }

  class PushBatch {
    var files: seq<PendingPushFile>
    var bytes: nat
    var chunks: nat

    constructor ()
      ensures files == [] && bytes == 0 && chunks == 0
    {
      files, bytes, chunks := [], 0, 0;
    }

    /** The running totals saturate; they never wrap. */
    ghost predicate Valid(config: BlobConfig)
      reads this
    {
      bytes == Saturated(TotalBytes(files)) && chunks == Saturated(TotalChunks(files, config))
    }

    method ShouldFlushBefore(file: PendingPushFile, config: BlobConfig) returns (flush: bool)
      requires Valid(config)
      ensures flush == FlushBefore(files, file, config)
    {
      if files == [] {
        return false;
      }
      var fileChunks := EstimatedChunkCount(file.fileSize, config.chunkSize);
      flush := |files| + 1 > PUSH_BATCH_MAX_FILES
        || SatAdd(bytes, file.fileSize) > PUSH_BATCH_MAX_BYTES
        || SatAdd(chunks, fileChunks) > PUSH_BATCH_MAX_CHUNKS;
    }

    method ShouldFlushNow(config: BlobConfig) returns (flush: bool)
      requires Valid(config)
      ensures flush == FlushNow(files, config)
    {
      flush := |files| >= PUSH_BATCH_MAX_FILES || bytes >= PUSH_BATCH_MAX_BYTES || chunks >= PUSH_BATCH_MAX_CHUNKS;
    }

    method Push(file: PendingPushFile, config: BlobConfig)
      requires Valid(config)
      modifies this
      ensures Valid(config) && files == old(files) + [file]
    {
      assert (files + [file])[..|files|] == files;
      bytes := SatAdd(bytes, file.fileSize);
      chunks := SatAdd(chunks, EstimatedChunkCount(file.fileSize, config.chunkSize));
      files := files + [file];
    }

    /** What a flush does to the batch itself. */
    method TakeFiles(config: BlobConfig) returns (taken: seq<PendingPushFile>)
      modifies this
      ensures taken == old(files) && files == [] && Valid(config)
    {
      taken := files;
      files, bytes, chunks := [], 0, 0;
    }
  }

  /** The batches handed over while one candidate is queued, and the batch left. */
  function Queued(files: seq<PendingPushFile>, candidate: PendingPushFile, config: BlobConfig): (seq<seq<PendingPushFile>>, seq<PendingPushFile>) {
    var flushBefore := FlushBefore(files, candidate, config);
    var batch := (if flushBefore then [] else files) + [candidate];
    var before := if flushBefore then [files] else [];
    if FlushNow(batch, config) then (before + [batch], []) else (before, batch)
  }

  /** Queueing a candidate hands over nothing beyond the limits, and leaves nothing overdue. */
  lemma {:induction false} QueuedWithinLimits(files: seq<PendingPushFile>, candidate: PendingPushFile, config: BlobConfig)
    requires WithinLimits(files, config) && !FlushNow(files, config)
    ensures var (flushed, left) := Queued(files, candidate, config);
            (forall i :: 0 <= i < |flushed| ==> flushed[i] != [] && WithinLimits(flushed[i], config)) &&
            WithinLimits(left, config) && !FlushNow(left, config)
  {
    var batch := (if FlushBefore(files, candidate, config) then [] else files) + [candidate];
    assert WithinLimits(batch, config) by {
      assert (files + [candidate])[..|files|] == files;
    }
  }

  /** The batch is handed over before the candidate joins it exactly if the two together would be beyond the limits. */
  lemma {:induction false} FlushesBeforeIffTooMuch(files: seq<PendingPushFile>, candidate: PendingPushFile, config: BlobConfig)
    ensures FlushBefore(files, candidate, config) <==> files != [] && !WithinLimits(files + [candidate], config)
  {
    assert (files + [candidate])[..|files|] == files;
  }

  /** It is handed over at once exactly if no file with a single byte would go with it any more. */
  lemma {:induction false} FlushesNowIffFull(files: seq<PendingPushFile>, config: BlobConfig)
    requires files != []
    ensures FlushNow(files, config) <==> forall file: PendingPushFile :: file.fileSize > 0 ==> !WithinLimits(files + [file], config)
  {
    forall file: PendingPushFile | file.fileSize > 0
      ensures EstimatedChunkCount(file.fileSize, config.chunkSize) > 0
      ensures !WithinLimits(files + [file], config) <==> FlushBefore(files, file, config)
    {
      SomethingHasChunks(file.fileSize, config.chunkSize);
      FlushesBeforeIffTooMuch(files, file, config);
    }
    if !FlushNow(files, config) {
      var byte := files[0].(fileSize := 1);
      OneByteIsOneChunk(config.chunkSize);
      assert WithinLimits(files + [byte], config);
    }
  }

  lemma {:induction false} SomethingHasChunks(byteLen: nat, chunkSize: nat)
    requires byteLen > 0
    ensures EstimatedChunkCount(byteLen, chunkSize) > 0
  {
    var d := if chunkSize == 0 then 1 else chunkSize;
    var n := byteLen + d - 1;
    assert n == d * (n / d) + n % d;
  }

  lemma {:induction false} OneByteIsOneChunk(chunkSize: nat)
    ensures EstimatedChunkCount(1, chunkSize) == 1
  {
    var d := if chunkSize == 0 then 1 else chunkSize;
    assert CeilDiv(1, d) == d / d == 1;
  }

  /** Queueing a candidate loses, repeats and reorders nothing. */
  lemma {:induction false} QueuedKeepsFiles(files: seq<PendingPushFile>, candidate: PendingPushFile, config: BlobConfig)
    ensures var (flushed, left) := Queued(files, candidate, config);
            Concat(flushed) + left == files + [candidate]
  {
    var (flushed, left) := Queued(files, candidate, config);
    ConcatOfFew(flushed);
  }

  lemma {:induction false} ConcatOfFew<T>(parts: seq<seq<T>>)
    ensures |parts| == 1 ==> Concat(parts) == parts[0]
    ensures |parts| == 2 ==> Concat(parts) == parts[0] + parts[1]
  {
    if |parts| == 2 {
      assert parts[1..] == [parts[1]] && parts[1..][1..] == [];
      assert Concat(parts[1..]) == parts[1] + Concat(parts[1..][1..]);
    }
  }

  /** The queueing step of the push loop. */
  method QueueCandidate(batch: PushBatch, candidate: PendingPushFile, config: BlobConfig)
    returns (flushed: seq<seq<PendingPushFile>>)
    requires batch.Valid(config)
    modifies batch
    ensures batch.Valid(config)
    ensures (flushed, batch.files) == Queued(old(batch.files), candidate, config)
  {
    flushed := [];
    var before := batch.ShouldFlushBefore(candidate, config);
    if before {
      var taken := batch.TakeFiles(config);
      flushed := [taken];
    }
    batch.Push(candidate, config);
    var now := batch.ShouldFlushNow(config);
    if now {
      var taken := batch.TakeFiles(config);
      flushed := flushed + [taken];
    }
  }

  // ---------------------------------------------------------------------------------------
  // The commit manifest
  // ---------------------------------------------------------------------------------------

  const HEX := "0123456789abcdef"

  /** One character of a JSON string as serde_json writes it. */
  function Escaped(c: char): string {
    if c == '"' then "\\\""
    else if c == '\\' then "\\\\"
    else if c == '\n' then "\\n"
    else if c == '\r' then "\\r"
    else if c == '\t' then "\\t"
    else if c as int == 8 then "\\b"
    else if c as int == 12 then "\\f"
    else if (c as int) < 32 then "\\u00" + [HEX[c as int / 16], HEX[c as int % 16]]
    else [c]
  }

  function EscapedAll(s: string): string {
    if s == [] then [] else Escaped(s[0]) + EscapedAll(s[1..])
  }

  /** The value of a lower-case hexadecimal digit. */
  function Nibble(c: char): Option<nat> {
    if '0' <= c <= '9' then Some(c as int - '0' as int)
    else if 'a' <= c <= 'f' then Some(c as int - 'a' as int + 10)
    else None
  }

  /** What a reader of section 7 of RFC 8259 makes of the text between the quotation marks, of the escapes as far as they occur here. */
  function Unescaped(t: string): Option<string> {
    if t == [] then Some([])
    else if t[0] == '"' || (t[0] as int) < 32 then None
    else if t[0] != '\\' then Before(t[0], Unescaped(t[1..]))
    else if |t| == 1 then None
    else if t[1] == '"' || t[1] == '\\' then Before(t[1], Unescaped(t[2..]))
    else if t[1] == 'n' then Before('\n', Unescaped(t[2..]))
    else if t[1] == 'r' then Before('\r', Unescaped(t[2..]))
    else if t[1] == 't' then Before('\t', Unescaped(t[2..]))
    else if t[1] == 'b' then Before(8 as char, Unescaped(t[2..]))
    else if t[1] == 'f' then Before(12 as char, Unescaped(t[2..]))
    else if t[1] == 'u' && |t| >= 6 && t[2] == t[3] == '0' && Nibble(t[4]).Some? && Nibble(t[5]).Some? then
      Before((16 * Nibble(t[4]).value + Nibble(t[5]).value) as char, Unescaped(t[6..]))
    else None
  }

  function Before(c: char, rest: Option<string>): Option<string> {
    if rest.Some? then Some([c] + rest.value) else None
  }

  lemma {:induction false} HexDigit(n: nat)
    requires n < 16
    ensures Nibble(HEX[n]) == Some(n) && HEX[n] != '"' && HEX[n] != '\\'
  {
  }

  lemma {:induction false} EscapedReadsBack(c: char, rest: string)
    ensures Unescaped(Escaped(c) + rest) == Before(c, Unescaped(rest))
  {
    var t := Escaped(c) + rest;
    assert t[|Escaped(c)|..] == rest;
    if (c as int) < 32 && |Escaped(c)| == 6 {
      HexDigit(c as int / 16);
      HexDigit(c as int % 16);
      assert t[4] == HEX[c as int / 16] && t[5] == HEX[c as int % 16];
    }
  }

  predicate IsPlain(c: char) {
    c as int >= 32 && c != '"' && c != '\\'
  }

  /** Any text written as a JSON string reads back as itself, and only what needs an escape has one. */
  lemma {:induction false} EscapedAllReadsBack(s: string)
    ensures Unescaped(EscapedAll(s)) == Some(s)
    ensures (forall i :: 0 <= i < |s| ==> IsPlain(s[i])) <==> EscapedAll(s) == s
    ensures |EscapedAll(s)| >= |s|
  {
    if s != [] {
      EscapedAllReadsBack(s[1..]);
      EscapedReadsBack(s[0], EscapedAll(s[1..]));
      assert s == [s[0]] + s[1..];
      if IsPlain(s[0]) {
        assert EscapedAll(s)[1..] == EscapedAll(s[1..]);
      } else {
        assert |EscapedAll(s)| > |s|;
      }
    }
  }

  function JsonString(s: string): string {
    "\"" + EscapedAll(s) + "\""
  }

  /** Hexadecimal digests, 64 characters each. */
  type Hex = Digest -> string

  ghost predicate Is64(hex: Hex) {
    forall d :: |hex(d)| == 64
  }

  function ChunkList(chunks: seq<Digest>, hex: Hex): string {
    if chunks == [] then []
    else if |chunks| == 1 then "\"" + hex(chunks[0]) + "\""
    else ChunkList(chunks[..|chunks| - 1], hex) + ",\"" + hex(chunks[|chunks| - 1]) + "\""
  }

  /** One commit file: the keys in the order of a sorted map, no content type when there is none. */
  function CommitJson(file: CommitFile, hex: Hex): string {
    "{\"chunks\":[" + ChunkList(file.chunks, hex) + "],\"content_hash\":\"" + hex(file.contentHash) + "\"" +
    (if file.contentType.Some? then ",\"content_type\":" + JsonString(file.contentType.value) else "") +
    ",\"path\":" + JsonString(file.path) + ",\"size\":" + Decimal(file.size) + "}"
  }

  function CommitsJson(files: seq<CommitFile>, hex: Hex): string {
    if files == [] then []
    else if |files| == 1 then CommitJson(files[0], hex)
    else CommitsJson(files[..|files| - 1], hex) + "," + CommitJson(files[|files| - 1], hex)
  }

  function ManifestJson(files: seq<CommitFile>, hex: Hex): string {
    "{\"files\":[" + CommitsJson(files, hex) + "]}"
  }

  /** `blob_commit_body_bytes`. */
  function BlobCommitBodyBytes(files: seq<CommitFile>, hex: Hex): nat {
    |ManifestJson(files, hex)|
  }

  function TextBytes(file: PendingPushFile): nat {
    |JsonString(file.remotePath)| + (if file.contentType.Some? then |JsonString(file.contentType.value)| else 0)
  }

  function EstimatedFileBytes(file: PendingPushFile, config: BlobConfig): nat {
    var chunks := EstimatedChunkCount(file.fileSize, config.chunkSize);
    160 + TextBytes(file) + (if chunks == 0 then 2 else 67 * chunks + 2) + 66 + |Decimal(file.fileSize)|
  }

  function EstimatedBodyBytes(files: seq<PendingPushFile>, config: BlobConfig): nat {
    if files == [] then |"{\"files\":[]}"|
    else EstimatedBodyBytes(files[..|files| - 1], config) + EstimatedFileBytes(files[|files| - 1], config)
  }

  /** `estimated_blob_commit_body_bytes`, every sum saturating. */
  method EstimatedBlobCommitBodyBytes(files: seq<PendingPushFile>, config: BlobConfig) returns (bytes: nat)
    ensures bytes == Saturated(EstimatedBodyBytes(files, config))
  {
    bytes := |"{\"files\":[]}"|;
    for n := 0 to |files|
      invariant bytes == Saturated(EstimatedBodyBytes(files[..n], config))
    {
      assert files[..n + 1][..n] == files[..n];
      var fileBytes := EstimatedBlobCommitFileBytes(files[n], config);
      bytes := SatAdd(bytes, fileBytes);
    }
    assert files[..|files|] == files;
  }

  method EstimatedBlobCommitFileBytes(file: PendingPushFile, config: BlobConfig) returns (bytes: nat)
    ensures bytes == Saturated(EstimatedFileBytes(file, config))
  {
    var chunks := EstimatedChunkCount(file.fileSize, config.chunkSize);
    var chunkArrayBytes := if chunks == 0 then 2 else SatAdd(Saturated(67 * chunks), 2);
    var contentTypeBytes := if file.contentType.Some? then |JsonString(file.contentType.value)| else 0;
    bytes := SatSum(|JsonString(file.remotePath)|, chunkArrayBytes, 66, |Decimal(file.fileSize)|, contentTypeBytes);
  }

  /** The chain of saturating additions. */
  method SatSum(path: nat, chunkArray: nat, hash: nat, digits: nat, contentType: nat) returns (bytes: nat)
    ensures bytes == Saturated(160 + path + chunkArray + hash + digits + contentType)
  {
    bytes := SatAdd(160, path);
    bytes := SatAdd(bytes, chunkArray);
    bytes := SatAdd(bytes, hash);
    bytes := SatAdd(bytes, digits);
    bytes := SatAdd(bytes, contentType);
  }

  // ---------------------------------------------------------------------------------------
  // The estimate is an upper bound
  // ---------------------------------------------------------------------------------------

  /** Reads that fill the buffer, but for the last. */
  ghost predicate FullReads(pieces: seq<Bytes>, chunkSize: nat) {
    (forall i :: 0 <= i < |pieces| ==> 0 < |pieces[i]| <= chunkSize) &&
    (forall i :: 0 <= i < |pieces| - 1 ==> |pieces[i]| == chunkSize)
  }

  lemma {:induction false} FullReadsLength(pieces: seq<Bytes>, chunkSize: nat)
    requires FullReads(pieces, chunkSize) && pieces != []
    ensures (|pieces| - 1) * chunkSize < |Concat(pieces)| <= |pieces| * chunkSize
  {
    if |pieces| == 1 {
      assert Concat(pieces) == pieces[0] + Concat(pieces[1..]);
      assert 1 * chunkSize == chunkSize && 0 * chunkSize == 0;
    } else {
      FullReadsLength(pieces[1..], chunkSize);
      var n := |pieces|;
      assert (n - 1) * chunkSize == (n - 2) * chunkSize + chunkSize;
      assert n * chunkSize == (n - 1) * chunkSize + chunkSize;
    }
  }

  lemma {:induction false} StepOfMultiples(a: int, b: int, d: nat)
    ensures a < b ==> (a + 1) * d <= b * d
  {
    if a < b {
      assert b * d == (a + 1) * d + (b - a - 1) * d;
      assert (b - a - 1) * d >= 0;
    }
  }

  lemma {:induction false} DivBounds(m: nat, d: nat, k: nat)
    requires d > 0 && k * d <= m < (k + 1) * d
    ensures m / d == k
  {
    var q := m / d;
    assert q * d + m % d == m;
    assert (q + 1) * d == q * d + d;
    StepOfMultiples(q, k, d);
    StepOfMultiples(k, q, d);
  }

  lemma {:induction false} CeilDivUnique(n: nat, d: nat, k: nat)
    requires d > 0 && k > 0 && (k - 1) * d < n <= k * d
    ensures CeilDiv(n, d) == k
  {
    assert k * d == (k - 1) * d + d && (k + 1) * d == k * d + d;
    DivBounds(n + d - 1, d, k);
  }

  lemma {:induction false} FullReadsCount(pieces: seq<Bytes>, chunkSize: nat)
    requires FullReads(pieces, chunkSize) && pieces != [] && |Concat(pieces)| <= U64_MAX
    ensures EstimatedChunkCount(|Concat(pieces)|, chunkSize) == |pieces|
  {
    FullReadsLength(pieces, chunkSize);
    var k, n := |pieces|, |Concat(pieces)|;
    assert 0 < |pieces[0]| <= chunkSize;
    CeilDivUnique(n, chunkSize, k);
    StepOfMultiples(0, chunkSize, k - 1);
    assert (k - 1) * chunkSize == chunkSize * (k - 1);
  }

  /** With full-size reads a planned file has the estimated number of chunks. */
  lemma {:induction false} FullReadsMeetEstimate(file: PendingPushFile, os: FileReads, config: BlobConfig)
    requires PlanFile(file, os, config).Ok? && FullReads(os.pieces, config.chunkSize)
    requires file.fileSize <= U64_MAX
    ensures |PlanFile(file, os, config).value.commit.chunks| == EstimatedChunkCount(file.fileSize, config.chunkSize)
  {
    if os.pieces != [] {
      FullReadsCount(os.pieces, config.chunkSize);
    }
  }

  lemma {:induction false} ChunkListLength(chunks: seq<Digest>, hex: Hex)
    requires Is64(hex)
    ensures |ChunkList(chunks, hex)| == if chunks == [] then 0 else 67 * |chunks| - 1
  {
    if |chunks| > 1 {
      ChunkListLength(chunks[..|chunks| - 1], hex);
    }
  }

  /** How much the estimate of one file is above its entry and the comma before it. */
  function Slack(file: PendingPushFile): nat {
    116 + (if file.fileSize == 0 then 0 else 1) - (if file.contentType.Some? then 16 else 0)
  }

  function TotalSlack(files: seq<PendingPushFile>): nat {
    if files == [] then 0 else TotalSlack(files[..|files| - 1]) + Slack(files[|files| - 1])
  }

  lemma {:induction false} CommitBelowEstimate(file: PendingPushFile, commit: CommitFile, config: BlobConfig, hex: Hex)
    requires Is64(hex) && CommitMatches(file, commit, config)
    ensures |CommitJson(commit, hex)| + 1 + Slack(file) == EstimatedFileBytes(file, config)
  {
    ChunkListLength(commit.chunks, hex);
    if file.fileSize > 0 {
      SomethingHasChunks(file.fileSize, config.chunkSize);
    }
  }

  /**
   With full-size reads the estimate is above the exact length of the manifest by a known amount
   a file, and by the comma that the first file lacks; so it is a bound.
   */
  lemma {:induction false} EstimateBoundsManifest(files: seq<PendingPushFile>, os: seq<FileReads>, config: BlobConfig, hex: Hex)
    requires |os| == |files| && SequentialPlan(files, os, config).Ok? && Is64(hex)
    requires forall i :: 0 <= i < |files| ==> files[i].fileSize <= U64_MAX
    requires forall i :: 0 <= i < |files| ==> os[i].Reads? ==> FullReads(os[i].pieces, config.chunkSize)
    ensures EstimatedBodyBytes(files, config) ==
            BlobCommitBodyBytes(SequentialPlan(files, os, config).value.commitFiles, hex) + TotalSlack(files) + if files == [] then 0 else 1
  {
    PlanAllElements(files, os, config);
    var commits := CommitsOf(PlanAll(files, os, config).value);
    forall i | 0 <= i < |files| ensures CommitMatches(files[i], commits[i], config) {
      assert PlanFile(files[i], os[i], config).Ok?;
      FullReadsMeetEstimate(files[i], os[i], config);
    }
    CommitsBelowEstimate(files, commits, config, hex);
  }

  predicate CommitMatches(file: PendingPushFile, commit: CommitFile, config: BlobConfig) {
    commit.path == file.remotePath && commit.size == file.fileSize && commit.contentType == file.contentType &&
    |commit.chunks| == EstimatedChunkCount(file.fileSize, config.chunkSize)
  }

  lemma {:induction false} CommitsBelowEstimate(files: seq<PendingPushFile>, commits: seq<CommitFile>, config: BlobConfig, hex: Hex)
    requires Is64(hex) && |commits| == |files|
    requires forall i :: 0 <= i < |files| ==> CommitMatches(files[i], commits[i], config)
    ensures |CommitsJson(commits, hex)| + 12 + TotalSlack(files) + (if files == [] then 0 else 1) == EstimatedBodyBytes(files, config)
  {
    if files != [] {
      var n := |files| - 1;
      CommitsBelowEstimate(files[..n], commits[..n], config, hex);
      CommitBelowEstimate(files[n], commits[n], config, hex);
      assert n == 0 ==> commits == [commits[0]];
    }
  }

  // ---------------------------------------------------------------------------------------
  // Who takes the direct upload
  // ---------------------------------------------------------------------------------------

  /** Bound on the JSON text of path and content type together. */
  const TEXT_BOUND := 900_000

  lemma {:induction false} DecimalLength(n: nat, digits: nat)
    requires digits > 0 && n < Pow10(digits)
    ensures |Decimal(n)| <= digits
    decreases digits
  {
    if n >= 10 {
      DecimalLength(n / 10, digits - 1);
    }
  }

  function Pow10(k: nat): nat {
    if k == 0 then 1 else 10 * Pow10(k - 1)
  }

  lemma {:induction false} EstimateOfSmallBatch(files: seq<PendingPushFile>, config: BlobConfig)
    requires forall i :: 0 <= i < |files| ==> files[i].fileSize <= U64_MAX && TextBytes(files[i]) <= TEXT_BOUND
    ensures EstimatedBodyBytes(files, config) <= 12 + |files| * (TEXT_BOUND + 248) + 67 * TotalChunks(files, config)
  {
    if files != [] {
      var n := |files| - 1;
      EstimateOfSmallBatch(files[..n], config);
      assert Pow10(20) == 100_000_000_000_000_000_000 by {
        assert Pow10(5) == 100_000;
        assert Pow10(10) == 10_000_000_000;
        assert Pow10(15) == 1_000_000_000_000_000;
      }
      DecimalLength(files[n].fileSize, 20);
      assert |files| * (TEXT_BOUND + 248) == n * (TEXT_BOUND + 248) + (TEXT_BOUND + 248);
    }
  }

  lemma {:induction false} SmallEstimate(files: seq<PendingPushFile>, config: BlobConfig)
    requires WithinLimits(files, config) && |files| > 1
    requires forall i :: 0 <= i < |files| ==> files[i].fileSize <= U64_MAX && TextBytes(files[i]) <= TEXT_BOUND
    ensures EstimatedBodyBytes(files, config) <= 31_457_280
  {
    EstimateOfSmallBatch(files, config);
    assert |files| * (TEXT_BOUND + 248) <= 32 * (TEXT_BOUND + 248);
  }

  /**
   With bounded path and content-type lengths and full-size reads, a batch of more than one
   file within the limits stays under both manifest checks: only a batch of one file can take
   the direct upload.
   */
  lemma {:induction false} OnlySingleFilesGoDirect(files: seq<PendingPushFile>, os: seq<FileReads>, config: BlobConfig, hex: Hex)
    requires |os| == |files| && SequentialPlan(files, os, config).Ok? && Is64(hex)
    requires WithinLimits(files, config) && |files| > 1
    requires forall i :: 0 <= i < |files| ==> files[i].fileSize <= U64_MAX && TextBytes(files[i]) <= TEXT_BOUND
    requires forall i :: 0 <= i < |files| ==> os[i].Reads? ==> FullReads(os[i].pieces, config.chunkSize)
    ensures EstimatedBodyBytes(files, config) <= 31_457_280
    ensures BlobCommitBodyBytes(SequentialPlan(files, os, config).value.commitFiles, hex) <= 31_457_280
  {
    SmallEstimate(files, config);
    EstimateBoundsManifest(files, os, config, hex);
  }
}
