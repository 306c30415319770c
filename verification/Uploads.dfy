/** Upload sessions (crates/quill-storage/src/uploads.rs).

    A session keeps a running hasher and a byte counter in memory and the payload
    in a file. The hasher is the sequence of bytes it has absorbed; finishing it
    applies the hash function. Calls on one session do not overlap, and an append
    to the file happens completely or not at all. */
module Uploads {

  import opened Base
  import opened Digests
  import opened BlobStore

  type SessionKey = (Repo, string)

  datatype Session = Session(hashed: Bytes, received: nat, finalized: bool)

  datatype Uploads = Uploads(sessions: map<SessionKey, Session>, files: map<SessionKey, Bytes>)

  datatype Reply = Opened | Total(bytes: nat) | NoSession | AlreadyFinalized | Mismatch | IoError | Aborted

  /** `create_session`. A name that is in use would be started over. */
  function Create(u: Uploads, k: SessionKey): Uploads {
    Uploads(u.sessions[k := Session([], 0, false)], u.files[k := []])
  }

  /** `append`: disk first, then the hasher and the counter. */
  function Append(u: Uploads, k: SessionKey, chunk: Bytes, ioOk: bool): (Uploads, Reply) {
    if k !in u.sessions then (u, NoSession)
    else if u.sessions[k].finalized then (u, AlreadyFinalized)
    else if !ioOk || k !in u.files then (u, IoError)
    else
      var s := u.sessions[k];
      var total := SaturatingAdd(s.received, |chunk|);
      (Uploads(u.sessions[k := s.(hashed := s.hashed + chunk, received := total)],
               u.files[k := u.files[k] + chunk]),
       Total(total))
  }

  /** `finalize`. Publishing moves the payload file to the blob's path. */
  function Finalize(hash: Hash, u: Uploads, blobs: map<BlobKey, Bytes>, k: SessionKey, last: Bytes, expected: Digest,
                    appendOk: bool, renameOk: bool): (Uploads, map<BlobKey, Bytes>, Reply)
  {
    var (v, r) := if last == [] then (u, Total(0)) else Append(u, k, last, appendOk);
    if !r.Total? then (v, blobs, r)
    else if k !in v.sessions then (v, blobs, NoSession)
    else if v.sessions[k].finalized then (v, blobs, AlreadyFinalized)
    else if hash(v.sessions[k].hashed) != expected then (v, blobs, Mismatch)
    else if !renameOk || k !in v.files then (v, blobs, IoError)
    else (Uploads(v.sessions - {k}, v.files - {k}), blobs[(k.0, expected) := v.files[k]], Total(v.sessions[k].received))
  }

  /** `abort`, as far as the maps go. */
  function Abort(u: Uploads, k: SessionKey): Uploads {
    if k in u.sessions then Uploads(u.sessions - {k}, u.files - {k}) else u
  }

  /** Hasher, counter and file of every session agree. */
  ghost predicate Agree(u: Uploads) {
    forall k :: k in u.sessions ==>
      && !u.sessions[k].finalized
      && k in u.files && u.files[k] == u.sessions[k].hashed
      && u.sessions[k].received == Saturate(|u.sessions[k].hashed|)
  }

  class UploadStore {
    const hash: Hash
    var uploads: Uploads
    var blobs: map<BlobKey, Bytes>

    constructor (hash: Hash, blobs: map<BlobKey, Bytes>)
      ensures this.hash == hash && uploads == Uploads(map[], map[]) && this.blobs == blobs
    {
      this.hash := hash;
      uploads := Uploads(map[], map[]);
      this.blobs := blobs;
    }

    method CreateSession(k: SessionKey)
      modifies this
      ensures uploads == Create(old(uploads), k) && blobs == old(blobs)
      ensures Agree(old(uploads)) ==> Agree(uploads)
    {
      uploads := uploads.(files := uploads.files[k := []]);
      uploads := uploads.(sessions := uploads.sessions[k := Session([], 0, false)]);
    }

    method AppendChunk(k: SessionKey, chunk: Bytes, ioOk: bool) returns (r: Reply)
      modifies this
      ensures (uploads, r) == Append(old(uploads), k, chunk, ioOk) && blobs == old(blobs)
      ensures Agree(old(uploads)) ==> Agree(uploads)
    {
      if k !in uploads.sessions {
        return NoSession;
      }
      if uploads.sessions[k].finalized {
        return AlreadyFinalized;
      }
      if !ioOk || k !in uploads.files {
        return IoError;
      }
      uploads := uploads.(files := uploads.files[k := uploads.files[k] + chunk]);
      var s := uploads.sessions[k];
      s := s.(hashed := s.hashed + chunk);
      s := s.(received := SaturatingAdd(s.received, |chunk|));
      uploads := uploads.(sessions := uploads.sessions[k := s]);
      r := Total(s.received);
    }

    /** Publishes the payload file exactly when the hasher accepts the digest. */
    method FinalizeSession(k: SessionKey, last: Bytes, expected: Digest, appendOk: bool, renameOk: bool)
      returns (r: Reply)
      modifies this
      ensures (uploads, blobs, r) == Finalize(hash, old(uploads), old(blobs), k, last, expected, appendOk, renameOk)
      ensures Agree(old(uploads)) ==> Agree(uploads)
      ensures Agree(old(uploads)) && Intact(hash, old(blobs)) ==> Intact(hash, blobs)
    {
      if last != [] {
        r := AppendChunk(k, last, appendOk);
        if !r.Total? {
          return;
        }
      }
      if k !in uploads.sessions {
        return NoSession;
      }
      var s := uploads.sessions[k];
      if s.finalized {
        return AlreadyFinalized;
      }
      if hash(s.hashed) != expected {
        return Mismatch;
      }
      if !renameOk || k !in uploads.files {
        return IoError;
      }
      blobs := blobs[(k.0, expected) := uploads.files[k]];
      uploads := uploads.(files := uploads.files - {k});
      uploads := uploads.(sessions := uploads.sessions - {k});
      r := Total(s.received);
    }
  }

  // ----- refinement of a plain byte sequence per session -----

  datatype Call =
    | CallCreate(key: SessionKey)
    | CallAppend(key: SessionKey, chunk: Bytes, ioOk: bool)
    | CallFinalize(key: SessionKey, last: Bytes, expected: Digest, appendOk: bool, renameOk: bool)
    | CallAbort(key: SessionKey)

  datatype Server = Server(uploads: Uploads, blobs: map<BlobKey, Bytes>)

  function Serve(hash: Hash, s: Server, c: Call): (Server, Reply) {
    match c
    case CallCreate(k) => (s.(uploads := Create(s.uploads, k)), Opened)
    case CallAppend(k, chunk, ioOk) =>
      var (u, r) := Append(s.uploads, k, chunk, ioOk);
      (s.(uploads := u), r)
    case CallFinalize(k, last, expected, appendOk, renameOk) =>
      var (u, b, r) := Finalize(hash, s.uploads, s.blobs, k, last, expected, appendOk, renameOk);
      (Server(u, b), r)
    case CallAbort(k) => (s.(uploads := Abort(s.uploads, k)), Aborted)
  }

  /** The specification: a session is the sequence of bytes sent to it. */
  datatype Ideal = Ideal(content: map<SessionKey, Bytes>, blobs: map<BlobKey, Bytes>)

  function IdealStep(hash: Hash, s: Ideal, c: Call): (Ideal, Reply) {
    match c
    case CallCreate(k) => (s.(content := s.content[k := []]), Opened)
    case CallAbort(k) => (s.(content := s.content - {k}), Aborted)
    case CallAppend(k, chunk, ioOk) =>
      if k !in s.content then (s, NoSession)
      else if !ioOk then (s, IoError)
      else
        var all := s.content[k] + chunk;
        (s.(content := s.content[k := all]), Total(Saturate(|all|)))
    case CallFinalize(k, last, expected, appendOk, renameOk) =>
      if k !in s.content then (s, NoSession)
      else if last != [] && !appendOk then (s, IoError)
      else
        var all := s.content[k] + last;
        if hash(all) != expected then (s.(content := s.content[k := all]), Mismatch)
        else if !renameOk then (s.(content := s.content[k := all]), IoError)
        else (Ideal(s.content - {k}, s.blobs[(k.0, expected) := all]), Total(Saturate(|all|)))
  }

  function Content(u: Uploads): map<SessionKey, Bytes> {
    map k | k in u.sessions :: u.sessions[k].hashed
  }

  function Abstract(s: Server): Ideal {
    Ideal(Content(s.uploads), s.blobs)
  }

  function Replies(hash: Hash, s: Server, calls: seq<Call>): (Server, seq<Reply>)
    decreases |calls|
  {
    if calls == [] then (s, [])
    else
      var (t, r) := Serve(hash, s, calls[0]);
      var (u, rs) := Replies(hash, t, calls[1..]);
      (u, [r] + rs)
  }

  function IdealReplies(hash: Hash, s: Ideal, calls: seq<Call>): (Ideal, seq<Reply>)
    decreases |calls|
  {
    if calls == [] then (s, [])
    else
      var (t, r) := IdealStep(hash, s, calls[0]);
      var (u, rs) := IdealReplies(hash, t, calls[1..]);
      (u, [r] + rs)
  }

  lemma AppendRefines(u: Uploads, k: SessionKey, chunk: Bytes, ioOk: bool)
    requires Agree(u)
    ensures var (v, r) := Append(u, k, chunk, ioOk);
            && Agree(v)
            && r == (if k !in u.sessions then NoSession else if !ioOk then IoError
                     else Total(Saturate(|u.sessions[k].hashed + chunk|)))
            && Content(v) == if r.Total? then Content(u)[k := u.sessions[k].hashed + chunk] else Content(u)
  {
    var (v, r) := Append(u, k, chunk, ioOk);
    if r.Total? {
      assert Content(v) == Content(u)[k := u.sessions[k].hashed + chunk];
    }
  }

  lemma FinalizeRefines(hash: Hash, s: Server, k: SessionKey, last: Bytes, expected: Digest, appendOk: bool,
                        renameOk: bool)
    requires Agree(s.uploads)
    ensures var c := CallFinalize(k, last, expected, appendOk, renameOk);
            var (t, r) := Serve(hash, s, c);
            Agree(t.uploads) && IdealStep(hash, Abstract(s), c) == (Abstract(t), r)
  {
    var u := s.uploads;
    var v := if last == [] then u else Append(u, k, last, appendOk).0;
    AppendRefines(u, k, last, appendOk);
    if k in u.sessions && (last == [] || appendOk) {
      var all := u.sessions[k].hashed + last;
      if last == [] {
        assert all == u.sessions[k].hashed;
        assert Content(u)[k := all] == Content(u);
      }
      assert Content(v) == Content(u)[k := all] && v.sessions[k].hashed == all;
      CloseOne(v, k);
      assert Content(u)[k := all] - {k} == Content(u) - {k};
    }
  }

  lemma CloseOne(u: Uploads, k: SessionKey)
    requires Agree(u)
    ensures var v := Uploads(u.sessions - {k}, u.files - {k});
            Agree(v) && Content(v) == Content(u) - {k}
  {
  }

  lemma ServeRefines(hash: Hash, s: Server, c: Call)
    requires Agree(s.uploads)
    ensures var (t, r) := Serve(hash, s, c);
            Agree(t.uploads) && IdealStep(hash, Abstract(s), c) == (Abstract(t), r)
  {
    match c
    case CallCreate(k) =>
      assert Content(Create(s.uploads, k)) == Content(s.uploads)[k := []];
    case CallAppend(k, chunk, ioOk) => AppendRefines(s.uploads, k, chunk, ioOk);
    case CallFinalize(k, last, expected, appendOk, renameOk) =>
      FinalizeRefines(hash, s, k, last, expected, appendOk, renameOk);
    case CallAbort(k) =>
      CloseOne(s.uploads, k);
      if k !in s.uploads.sessions {
        assert Content(s.uploads) - {k} == Content(s.uploads);
      }
  }

  /** Over every sequence of calls, the server answers like the specification and
      publishes the same blobs; hasher, counter and file never part. */
  lemma {:induction false} RunRefines(hash: Hash, s: Server, calls: seq<Call>)
    requires Agree(s.uploads)
    ensures var (t, rs) := Replies(hash, s, calls);
            Agree(t.uploads) && IdealReplies(hash, Abstract(s), calls) == (Abstract(t), rs)
    decreases |calls|
  {
    if calls != [] {
      ServeRefines(hash, s, calls[0]);
      RunRefines(hash, Serve(hash, s, calls[0]).0, calls[1..]);
    }
  }

  /** Finishing publishes exactly when the bytes received hash to the expected
      digest, and no later call finds the session until it is opened anew. */
  lemma FinalizeExact(hash: Hash, s: Server, k: SessionKey, last: Bytes, expected: Digest, calls: seq<Call>, c: Call)
    requires Agree(s.uploads) && k in s.uploads.sessions
    requires CallCreate(k) !in calls
    requires c.key == k && (c.CallAppend? || c.CallFinalize?)
    ensures var all := s.uploads.sessions[k].hashed + last;
            var (t, r) := Serve(hash, s, CallFinalize(k, last, expected, true, true));
            if hash(all) == expected then
              && r == Total(Saturate(|all|)) && (|all| < 0x1_0000_0000_0000_0000 ==> r == Total(|all|))
              && t.blobs == s.blobs[(k.0, expected) := all]
              && Serve(hash, Replies(hash, t, calls).0, c).1 == NoSession
            else r == Mismatch && t.blobs == s.blobs && k in t.uploads.sessions && t.uploads.sessions[k].hashed == all
  {
    var t := Serve(hash, s, CallFinalize(k, last, expected, true, true)).0;
    ServeRefines(hash, s, CallFinalize(k, last, expected, true, true));
    if last == [] {
      assert s.uploads.sessions[k].hashed + last == s.uploads.sessions[k].hashed;
    }
    if k !in t.uploads.sessions {
      StaysClosed(hash, t, k, calls);
    }
  }

  lemma {:induction false} StaysClosed(hash: Hash, s: Server, k: SessionKey, calls: seq<Call>)
    requires k !in s.uploads.sessions && CallCreate(k) !in calls
    ensures k !in Replies(hash, s, calls).0.uploads.sessions
    decreases |calls|
  {
    if calls != [] {
      StaysClosed(hash, Serve(hash, s, calls[0]).0, k, calls[1..]);
    }
  }

  /** The request that ends an upload carries its last bytes. After a mismatch those
      bytes stay, so sending them again with the right digest succeeds exactly when
      there were none; ending the session without them succeeds always. All that is
      asked of the hash is that the content with and without a second copy of these
      bytes is not a collision. */
  lemma RetrySucceedsIff(hash: Hash, s: Server, k: SessionKey, last: Bytes, wrong: Digest)
    requires Agree(s.uploads) && k in s.uploads.sessions
    requires var all := s.uploads.sessions[k].hashed + last;
             hash(all) != wrong && (hash(all + last) == hash(all) ==> all + last == all)
    ensures var right := hash(s.uploads.sessions[k].hashed + last);
            var (t, r) := Serve(hash, s, CallFinalize(k, last, wrong, true, true));
            && r == Mismatch
            && (Serve(hash, t, CallFinalize(k, last, right, true, true)).1.Total? <==> last == [])
            && Serve(hash, t, CallFinalize(k, [], right, true, true)).1.Total?
  {
    var all := s.uploads.sessions[k].hashed + last;
    var first := CallFinalize(k, last, wrong, true, true);
    var t := Serve(hash, s, first).0;
    ServeRefines(hash, s, first);
    assert t.uploads.sessions[k].hashed == all by {
      assert Content(t.uploads)[k] == all;
    }
    ServeRefines(hash, t, CallFinalize(k, last, hash(all), true, true));
    ServeRefines(hash, t, CallFinalize(k, [], hash(all), true, true));
    assert all + [] == all;
    assert |all + last| == |all| <==> last == [];
  }

}
