/** The server side of the chunked Pro upload (server.py:451-471): an upload session is opened with
    an empty temporary file and a byte counter at 0, and each chunk request appends its body to the
    file and adds its length to the counter. The session collection of the database is a map from
    upload id to session; the temporary file is the session's `content`. */
module UploadStore {
  import opened Wrappers
  import opened ProUpload

  newtype Byte = x: int | 0 <= x < 256

  datatype Session = Session(filename: string, sizeBytes: nat, content: seq<Byte>, uploaded: nat, status: string)

  /** The answer to a chunk request: 404, 400, or the new byte count. */
  datatype ChunkReply = NotFound | EmptyChunk | Stored(uploaded: nat)

  /** The session `pro_upload_init` inserts: an empty file, nothing uploaded yet. */
  function Opened(filename: string, sizeBytes: nat): (s: Session)
    ensures s.content == [] && s.uploaded == 0 && s.status == "uploading"
  {
    Session(filename, sizeBytes, [], 0, "uploading")
  }

  /** Every session's counter is the length of its file. */
  predicate Counted(sessions: map<string, Session>)
  {
    forall id :: id in sessions ==> sessions[id].uploaded == |sessions[id].content|
  }

  /** `pro_upload_chunk` on the session collection: an unknown id is refused with 404 and an empty
      body with 400, neither changing anything; otherwise the body is appended to that session's
      file and its length is added to that session's counter; its name, size and status stay as
      they were, and no other session changes. */
  function Receive(sessions: map<string, Session>, id: string, chunk: seq<Byte>): (r: (map<string, Session>, ChunkReply))
    ensures r.1 == NotFound <==> id !in sessions
    ensures r.1 == EmptyChunk <==> id in sessions && chunk == []
    ensures !r.1.Stored? ==> r.0 == sessions
    ensures r.1.Stored? ==>
      && r.0.Keys == sessions.Keys
      && r.0[id].content == sessions[id].content + chunk
      && r.0[id].uploaded == r.1.uploaded == sessions[id].uploaded + |chunk|
      && r.0[id].filename == sessions[id].filename && r.0[id].sizeBytes == sessions[id].sizeBytes
      && r.0[id].status == sessions[id].status
      && (forall other :: other in sessions && other != id ==> r.0[other] == sessions[other])
  {
    if id !in sessions then (sessions, NotFound)
    else if chunk == [] then (sessions, EmptyChunk)
    else
      var s := sessions[id];
      var uploaded := s.uploaded + |chunk|;
      (sessions[id := s.(content := s.content + chunk, uploaded := uploaded)], Stored(uploaded))
  }

  /** A chunk request keeps every counter equal to its file's length. */
  lemma ReceiveKeepsCounted(sessions: map<string, Session>, id: string, chunk: seq<Byte>)
    requires Counted(sessions)
    ensures Counted(Receive(sessions, id, chunk).0)
  {
  }

  /** The session collection after the chunk requests `chunks` for one upload id, in order. */
  function ReceiveAll(sessions: map<string, Session>, id: string, chunks: seq<seq<Byte>>): map<string, Session>
  {
    if chunks == [] then sessions else ReceiveAll(Receive(sessions, id, chunks[0]).0, id, chunks[1..])
  }

  /** Non-empty chunks for an open session are appended in order and counted in full; the
      session keeps its name, size and status, and no other session changes. */
  lemma {:induction false} ReceiveAllAppends(sessions: map<string, Session>, id: string, chunks: seq<seq<Byte>>)
    requires id in sessions
    requires forall k :: 0 <= k < |chunks| ==> chunks[k] != []
    ensures var after := ReceiveAll(sessions, id, chunks);
      && after.Keys == sessions.Keys
      && after[id].content == sessions[id].content + Flatten(chunks)
      && after[id].uploaded == sessions[id].uploaded + |Flatten(chunks)|
      && after[id].filename == sessions[id].filename && after[id].sizeBytes == sessions[id].sizeBytes
      && after[id].status == sessions[id].status
      && (forall other :: other in sessions && other != id ==> after[other] == sessions[other])
    decreases |chunks|
  {
    if chunks != [] {
      var next := Receive(sessions, id, chunks[0]).0;
      ReceiveAllAppends(next, id, chunks[1..]);
      assert sessions[id].content + chunks[0] + Flatten(chunks[1..]) == sessions[id].content + Flatten(chunks);
    }
  }

  /** The request bodies the client cuts from `data`: `file.slice(offset, end)` for each slice. */
  function Bodies(data: seq<Byte>, slices: seq<Slice>): (r: seq<seq<Byte>>)
    ensures |r| == |slices|
  {
    if slices == [] then []
    else
      var s := slices[0];
      [if s.from <= s.to <= |data| then data[s.from..s.to] else []] + Bodies(data, slices[1..])
  }

  /** The bodies of the slices from `offset` on are non-empty and put back together give the file
      from `offset` on. */
  lemma {:induction false} BodiesRebuild(data: seq<Byte>, offset: nat)
    requires offset <= |data|
    ensures var bs := Bodies(data, Slices(offset, |data|));
      Flatten(bs) == data[offset..] && forall k :: 0 <= k < |bs| ==> bs[k] != []
    decreases |data| - offset
  {
    var size := |data|;
    if offset < size {
      var end := if offset + ChunkSize < size then offset + ChunkSize else size;
      assert Slices(offset, size) == [Slice(offset, end)] + Slices(end, size);
      var bs := Bodies(data, Slices(offset, size));
      var rest := Bodies(data, Slices(end, size));
      assert bs == [data[offset..end]] + rest;
      BodiesRebuild(data, end);
      assert bs[1..] == rest;
      assert data[offset..] == data[offset..end] + data[end..];
    }
  }

  /** An upload the client carries out to the end leaves the session's file equal to the
      client's file, with the counter at its size. */
  lemma UploadRebuildsFile(sessions: map<string, Session>, id: string, filename: string, data: seq<Byte>)
    ensures var after := ReceiveAll(sessions[id := Opened(filename, |data|)], id, Bodies(data, Slices(0, |data|)));
      && id in after
      && after[id].content == data
      && after[id].uploaded == after[id].sizeBytes == |data|
  {
    var start := sessions[id := Opened(filename, |data|)];
    BodiesRebuild(data, 0);
    ReceiveAllAppends(start, id, Bodies(data, Slices(0, |data|)));
    assert data[0..] == data;
  }

  /** The upload-session collection of the server. */
  class SessionStore {
    var sessions: map<string, Session>

    ghost predicate Valid()
      reads this
    {
      Counted(sessions)
    }

    constructor ()
      ensures sessions == map[] && Valid()
    {
      sessions := map[];
    }

    /** pro_upload_init (server.py:451-459); `id` stands for the fresh uuid4. */
    method Init(id: string, filename: string, sizeBytes: nat)
      requires Valid() && id !in sessions
      modifies this
      ensures Valid()
      ensures sessions == old(sessions)[id := Opened(filename, sizeBytes)]
    {
      sessions := sessions[id := Opened(filename, sizeBytes)];
    }

    /** pro_upload_chunk (server.py:461-471). */
    method Chunk(id: string, chunk: seq<Byte>) returns (reply: ChunkReply)
      requires Valid()
      modifies this
      ensures Valid()
      ensures (sessions, reply) == Receive(old(sessions), id, chunk)
    {
      if id !in sessions {
        return NotFound;
      }
      if chunk == [] {
        return EmptyChunk;
      }
      var s := sessions[id];
      var uploaded := s.uploaded + |chunk|;
      sessions := sessions[id := s.(content := s.content + chunk, uploaded := uploaded)];
      reply := Stored(uploaded);
    }
  }
}
