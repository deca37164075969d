/** Object keys and the storage port: apps/api/src/domain/transfer/storage-key.ts and
    apps/api/src/domain/storage/object-storage.fake.ts. Keys are kept structured here;
    module StorageKey renders them and proves that rendering loses nothing. */
module ObjectStorage {
  import opened Common

  datatype ObjectKey =
    | FileObject(room: Id, transfer: Id)
    | ChunkObject(room: Id, transfer: Id, index: nat)

  type Objects = map<ObjectKey, seq<byte>>

  function Put(objects: Objects, key: ObjectKey, body: seq<byte>, verdict: Verdict): Objects {
    if verdict.TookEffect() then objects[key := body] else objects
  }

  function Remove(objects: Objects, key: ObjectKey, verdict: Verdict): Objects {
    if verdict.TookEffect() then objects - {key} else objects
  }

  /** Reading past the end yields nothing, as Buffer.subarray does. */
  function Get(objects: Objects, key: ObjectKey, offset: nat): Option<seq<byte>> {
    if key !in objects then None
    else if offset <= |objects[key]| then Some(objects[key][offset..]) else Some([])
  }

  class Storage {
    var objects: Objects

    constructor ()
      ensures objects == map[]
    {
      objects := map[];
    }

    method PutObject(key: ObjectKey, body: seq<byte>, verdict: Verdict) returns (ok: bool)
      modifies this
      ensures objects == Put(old(objects), key, body, verdict) && ok == verdict.Reported()
    {
      if verdict != Refused {
        objects := objects[key := body];
      }
      ok := verdict == Done;
    }

    method GetObject(key: ObjectKey, offset: nat) returns (body: Option<seq<byte>>)
      ensures body == Get(objects, key, offset)
    {
      if key !in objects {
        return None;
      }
      var whole := objects[key];
      body := Some(if offset <= |whole| then whole[offset..] else []);
    }

    method RemoveObject(key: ObjectKey, verdict: Verdict) returns (ok: bool)
      modifies this
      ensures objects == Remove(old(objects), key, verdict) && ok == verdict.Reported()
    {
      if verdict != Refused {
        objects := objects - {key};
      }
      ok := verdict == Done;
    }
  }
}
