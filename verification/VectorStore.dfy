/** The semantic layer: chunk_meta and vec_chunks, two tables that share row ids. */
module VectorStore {
  import opened Base
  import opened Digests
  import opened FloatCodec
  import Ids

  datatype OwnerType = SymbolOwner | FileOwner | MemoryOwner

  datatype VecKey = VecKey(owner: OwnerType, id: Id, model: string)

  datatype Entry = Entry(sha: Digest, vec: Vec)

  /** What the two tables mean together. */
  type Vectors = map<VecKey, Entry>

  datatype ChunkMeta = ChunkMeta(key: VecKey, sha: Digest)

  function WithoutOwners(m: Vectors, owner: OwnerType, ids: seq<Id>): Vectors {
    map k | k in m && !(k.owner == owner && k.id in ids) :: m[k]
  }

  /** The two tables hold the same row ids, one row per key, and mean the map m. */
  ghost predicate Refines(meta: map<Id, ChunkMeta>, vecs: map<Id, seq<Byte>>, m: Vectors) {
    && meta.Keys == vecs.Keys
    && (forall r, s :: r in meta && s in meta && meta[r].key == meta[s].key ==> r == s)
    && (forall r :: r in meta ==> meta[r].key in m && m[meta[r].key] == Entry(meta[r].sha, Decode(vecs[r])))
    && (forall k :: k in m ==> exists r :: r in meta && meta[r].key == k)
  }

  lemma PutRefines(meta: map<Id, ChunkMeta>, vecs: map<Id, seq<Byte>>, m: Vectors, row: Id, key: VecKey, sha: Digest, blob: seq<Byte>)
    requires Refines(meta, vecs, m)
    requires forall r :: r in meta ==> (meta[r].key == key <==> r == row)
    ensures Refines(meta[row := ChunkMeta(key, sha)], vecs[row := blob], m[key := Entry(sha, Decode(blob))])
  {
    var meta', m' := meta[row := ChunkMeta(key, sha)], m[key := Entry(sha, Decode(blob))];
    assert row in meta' && meta'[row].key == key;
    forall k | k in m' ensures exists r :: r in meta' && meta'[r].key == k {
      if k != key {
        var r :| r in meta && meta[r].key == k;
        assert r in meta' && meta'[r].key == k;
      }
    }
  }

  /** The row found for a key, or a fresh row when there is none, is the only row the key may use. */
  lemma RowFits(meta: map<Id, ChunkMeta>, vecs: map<Id, seq<Byte>>, m: Vectors, row: Id, key: VecKey)
    requires Refines(meta, vecs, m)
    requires if key in m then row in meta && meta[row].key == key else row !in meta
    ensures forall r :: r in meta ==> (meta[r].key == key <==> r == row)
    ensures row in meta <==> row in vecs
  {
  }

  lemma DropRefines(meta: map<Id, ChunkMeta>, vecs: map<Id, seq<Byte>>, m: Vectors, gone: set<Id>, owner: OwnerType, ids: seq<Id>)
    requires Refines(meta, vecs, m)
    requires gone == set r | r in meta && meta[r].key.owner == owner && meta[r].key.id in ids
    ensures Refines(meta - gone, vecs - gone, WithoutOwners(m, owner, ids))
  {
    var m' := WithoutOwners(m, owner, ids);
    forall k | k in m' ensures exists r :: r in meta - gone && (meta - gone)[r].key == k {
      var r :| r in meta && meta[r].key == k;
      assert r in meta - gone && (meta - gone)[r].key == k;
    }
  }

  class VecTables {
    var chunkMeta: map<Id, ChunkMeta>
    var vecChunks: map<Id, seq<Byte>>
    /** What the two tables mean together, and what they meant after each committed transaction. */
    ghost var contents: Vectors
    ghost var commits: seq<Vectors>

    ghost predicate Valid()
      reads this
    {
      Refines(chunkMeta, vecChunks, contents)
    }

    constructor ()
      ensures Valid() && contents == map[] && commits == []
    {
      chunkMeta, vecChunks, contents, commits := map[], map[], map[], [];
    }

    /** SELECT rowid FROM chunk_meta for one owner and model. */
    method RowOf(key: VecKey) returns (row: Option<Id>)
      requires Valid()
      ensures row.None? ==> key !in contents
      ensures row.Some? ==> key in contents && row.value in chunkMeta && chunkMeta[row.value].key == key
    {
      if r :| r in chunkMeta && chunkMeta[r].key == key {
        row := Some(r);
      } else {
        row := None;
      }
    }

    method UpsertVector(owner: OwnerType, id: Id, model: string, sha: Digest, vec: Vec)
      requires Valid()
      modifies this
      ensures Valid()
      ensures contents == old(contents)[VecKey(owner, id, model) := Entry(sha, vec)]
      ensures commits == old(commits) + [contents]
    {
      hide Refines, Encode, Decode;
      var key := VecKey(owner, id, model);
      var blob := SerializeFloat32(vec);
      DecodeEncode(vec);
      var found := RowOf(key);
      var rowid := if found.Some? then found.value else Ids.NextId(chunkMeta.Keys);
      RowFits(chunkMeta, vecChunks, contents, rowid, key);
      PutRefines(chunkMeta, vecChunks, contents, rowid, key, sha, blob);
      chunkMeta := chunkMeta[rowid := ChunkMeta(key, sha)];
      if found.Some? {
        // vec0 has no UPDATE: delete, then insert at the same row id
        vecChunks := vecChunks - {rowid};
      }
      assert rowid !in vecChunks;  // the INSERT into vec_chunks cannot collide
      vecChunks := vecChunks[rowid := blob];
      assert vecChunks == old(vecChunks)[rowid := blob];
      contents := contents[key := Entry(sha, vec)];
      commits := commits + [contents];
    }

    method DeleteVectors(owner: OwnerType, ids: seq<Id>)
      requires Valid()
      modifies this
      ensures Valid()
      ensures contents == WithoutOwners(old(contents), owner, ids)
      ensures commits == old(commits) + if ids == [] then [] else [contents]
    {
      if ids == [] {
        assert contents == WithoutOwners(contents, owner, ids);
        return;
      }
      var gone := set r | r in chunkMeta && chunkMeta[r].key.owner == owner && chunkMeta[r].key.id in ids;
      DropRefines(chunkMeta, vecChunks, contents, gone, owner, ids);
      vecChunks := vecChunks - gone;
      chunkMeta := chunkMeta - gone;
      contents := WithoutOwners(contents, owner, ids);
      commits := commits + [contents];
    }

    method ClearVectors()
      requires Valid()
      modifies this
      ensures Valid() && contents == map[]
      ensures commits == old(commits) + [contents]
    {
      vecChunks, chunkMeta, contents := map[], map[], map[];
      commits := commits + [contents];
    }

    /** The stored digest of an owner under a model, if there is one. */
    method ChunkShaOf(owner: OwnerType, id: Id, model: string) returns (r: Option<Digest>)
      requires Valid()
      ensures var key := VecKey(owner, id, model);
              r == if key in contents then Some(contents[key].sha) else None
    {
      var row := RowOf(VecKey(owner, id, model));
      r := if row.Some? then Some(chunkMeta[row.value].sha) else None;
    }

    /** One symbol's stored digest and vector, as the join of the two tables returns it. */
    method Chunk(owner: OwnerType, id: Id, model: string) returns (r: Option<Entry>)
      requires Valid()
      ensures var key := VecKey(owner, id, model);
              r == if key in contents then Some(contents[key]) else None
    {
      var row := RowOf(VecKey(owner, id, model));
      if row.None? {
        return None;
      }
      var vec := DeserializeFloat32(vecChunks[row.value]);
      r := Some(Entry(chunkMeta[row.value].sha, vec));
    }
  }
}
