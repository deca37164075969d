/** The chunk arithmetic of apps/api/src/domain/transfer/chunking.ts, and the slices of a
    file that the web client cuts with it. */
module Chunking {
  import opened Common

  /** 256 * 1024 */
  const CHUNK_SIZE_BYTES: nat := 262144

  /** The default upload limit, 5 GiB. */
  const DEFAULT_MAX_FILE_SIZE_BYTES: nat := 5368709120

  datatype ChunkError =
    | NotPositive
    | TotalMismatch(total: int, expected: int)
    | OutOfRange(index: int)
    | SizeMismatch(length: int, expected: int)

  function ChunkCountFor(fileSizeBytes: int): (r: Result<nat, ChunkError>)
    ensures r.Failure? <==> fileSizeBytes <= 0
    ensures r.Success? ==> (r.value - 1) * CHUNK_SIZE_BYTES < fileSizeBytes <= r.value * CHUNK_SIZE_BYTES
  {
    if fileSizeBytes <= 0 then Failure(NotPositive)
    else Success((fileSizeBytes + (CHUNK_SIZE_BYTES - 1)) / CHUNK_SIZE_BYTES)
  }

  datatype ChunkShape = ChunkShape(fileSizeBytes: int, totalChunks: int, chunkIndex: int, byteLength: int)

  /** None when the chunk is acceptable, otherwise the first check it fails. */
  function ValidateChunk(shape: ChunkShape): Option<ChunkError> {
    match ChunkCountFor(shape.fileSizeBytes)
    case Failure(e) => Some(e)
    case Success(expectedTotal) =>
      if shape.totalChunks != expectedTotal then
        Some(TotalMismatch(shape.totalChunks, expectedTotal))
      else if shape.chunkIndex < 0 || shape.chunkIndex >= shape.totalChunks then
        Some(OutOfRange(shape.chunkIndex))
      else
        var isTail := shape.chunkIndex == shape.totalChunks - 1;
        var expectedLength :=
          if isTail then shape.fileSizeBytes - shape.chunkIndex * CHUNK_SIZE_BYTES else CHUNK_SIZE_BYTES;
        if shape.byteLength != expectedLength then
          Some(SizeMismatch(shape.byteLength, expectedLength))
        else
          None
  }

  /** Where byte `k * CHUNK_SIZE_BYTES` falls in the file, clamped to its end as Blob.slice
      and Buffer.subarray clamp. */
  function Cut(file: seq<byte>, k: nat): (c: nat)
    ensures c <= |file|
  {
    if k * CHUNK_SIZE_BYTES <= |file| then k * CHUNK_SIZE_BYTES else |file|
  }

  /** The bytes before chunk k. */
  function Prefix(file: seq<byte>, k: nat): seq<byte> {
    file[..Cut(file, k)]
  }

  /** Chunk i of the file, cut as the client cuts it. */
  function Slice(file: seq<byte>, i: nat): seq<byte> {
    file[Cut(file, i)..Cut(file, i + 1)]
  }

  function Count(file: seq<byte>): nat {
    if file == [] then 0 else ChunkCountFor(|file|).value
  }

  lemma IndexInRangeMeansBytesLeft(file: seq<byte>, k: nat)
    ensures k < Count(file) <==> k * CHUNK_SIZE_BYTES < |file|
  {
  }

  lemma PrefixGrowsBySlice(file: seq<byte>, k: nat)
    ensures Prefix(file, k) + Slice(file, k) == Prefix(file, k + 1)
  {
  }

  lemma PrefixOfAllChunksIsFile(file: seq<byte>, k: nat)
    requires k >= Count(file)
    ensures Prefix(file, k) == file
  {
  }

  /** The validator accepts exactly the true shape of a chunk of the file. */
  lemma ValidChunkIffTrueShape(file: seq<byte>, totalChunks: int, index: int, byteLength: int)
    requires file != []
    ensures ValidateChunk(ChunkShape(|file|, totalChunks, index, byteLength)).None?
       <==> totalChunks == Count(file) && 0 <= index < Count(file) && byteLength == |Slice(file, index)|
  {
  }

  /** A chunk is refused for the first thing that is wrong with it: the count, then the index, then the
      length. */
  lemma RefusalsNameTheFirstFault(file: seq<byte>, totalChunks: int, index: int, byteLength: int)
    requires file != []
    ensures var refusal := ValidateChunk(ChunkShape(|file|, totalChunks, index, byteLength));
            && (totalChunks != Count(file) ==> refusal == Some(TotalMismatch(totalChunks, Count(file))))
            && (totalChunks == Count(file) && !(0 <= index < Count(file)) ==> refusal == Some(OutOfRange(index)))
            && (totalChunks == Count(file) && 0 <= index < Count(file) && byteLength != |Slice(file, index)| ==>
                  refusal == Some(SizeMismatch(byteLength, |Slice(file, index)|)))
  {
  }
}
