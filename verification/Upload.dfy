/** Chunked upload with retries over a channel that may lose a request or only its answer. */
module Upload {
  import opened Util

  type Byte = bv8
  type Bytes = seq<Byte>

  const CHUNK_BYTES := 262144
  const MAX_RETRIES := 6
  const MAX_BACKOFF_MS := 15000

  /** What becomes of one request. */
  datatype Outcome = Undelivered | Refused | AnswerLost | Acked

  datatype Result = Uploaded(bytes: Bytes) | InitFailed | ChunkFailed(index: nat) | CompleteFailed

  // ---- slicing ----

  function Min(a: nat, b: nat): nat {
    if a < b then a else b
  }

  function TotalChunks(size: nat): (n: nat)
    ensures n >= 1 && size <= n * CHUNK_BYTES && (n > 1 ==> (n - 1) * CHUNK_BYTES < size)
  {
    var n := (size + CHUNK_BYTES - 1) / CHUNK_BYTES;
    if n < 1 then 1 else n
  }

  /** `File.slice`: both ends are clamped to the file. */
  function Slice(file: Bytes, i: nat): Bytes {
    file[Min(i * CHUNK_BYTES, |file|)..Min((i + 1) * CHUNK_BYTES, |file|)]
  }

  /** The chunks `0..n-1` of the hub's table, one after the other. */
  function Assemble(chunks: map<nat, Bytes>, n: nat): Bytes
    requires forall i: nat :: i < n ==> i in chunks
  {
    if n == 0 then [] else Assemble(chunks, n - 1) + chunks[n - 1]
  }

  lemma {:induction false} AssembleSlices(file: Bytes, chunks: map<nat, Bytes>, n: nat)
    requires forall i: nat :: i < n ==> i in chunks && chunks[i] == Slice(file, i)
    ensures Assemble(chunks, n) == file[..Min(n * CHUNK_BYTES, |file|)]
  {
    if n > 0 {
      AssembleSlices(file, chunks, n - 1);
    }
  }

  // ---- retrying ----

  function Power2(n: nat): nat {
    if n == 0 then 1 else 2 * Power2(n - 1)
  }

  function Backoff(attempt: nat): nat {
    if attempt == 0 then 0 else Min(1000 * Power2(attempt), MAX_BACKOFF_MS)
  }

  /** Milliseconds spent waiting before the first `tries` attempts at one chunk. */
  function Waited(tries: nat): nat {
    if tries == 0 then 0 else Waited(tries - 1) + Backoff(tries - 1)
  }

  /** The first try goes out at once; then the wait doubles from two seconds up to fifteen. */
  lemma BackoffSteps()
    ensures Backoff(0) == 0 && Backoff(1) == 2000 && Backoff(2) == 4000 && Backoff(3) == 8000
    ensures forall n :: n >= 4 ==> Backoff(n) == 15000
  {
    assert Power2(1) == 2 && Power2(2) == 4 && Power2(3) == 8;
    forall n: nat | n >= 4 ensures Power2(n) >= 16 { PowerGrows(n); }
  }

  lemma {:induction false} PowerGrows(n: nat)
    requires n >= 4
    ensures Power2(n) >= 16
  {
    if n > 4 { PowerGrows(n - 1); } else { assert Power2(1) == 2 && Power2(2) == 4 && Power2(3) == 8; }
  }

  /** One chunk never waits longer than 44 seconds in all, and six attempts wait exactly that. */
  lemma WaitedAtMost(tries: nat)
    requires tries <= MAX_RETRIES
    ensures Waited(tries) <= 44000
    ensures Waited(MAX_RETRIES) == 44000
  {
    assert Power2(1) == 2 && Power2(2) == 4 && Power2(3) == 8;
    assert Power2(4) == 16 && Power2(5) == 32;
    assert Waited(0) == 0 && Waited(1) == 0 && Waited(2) == 2000;
    assert Waited(3) == 6000 && Waited(4) == 14000;
    assert Waited(5) == 29000 && Waited(6) == 44000;
  }

  /** Requests spent on a chunk whose first request is number `at`: up to the first answer, at most `left`. */
  function Tries(net: nat -> Outcome, at: nat, left: nat): (n: nat)
    ensures n <= left
    decreases left
  {
    if left == 0 then 0
    else if net(at) == Acked then 1
    else 1 + Tries(net, at + 1, left - 1)
  }

  /** Some attempt among the six is answered. */
  ghost predicate Gets(net: nat -> Outcome, at: nat) {
    exists k: nat :: at <= k < at + MAX_RETRIES && net(k) == Acked
  }

  /** Counting attempts forwards, as the loop does, comes to the same number. */
  lemma {:induction false} TriesAre(net: nat -> Outcome, at: nat, left: nat, n: nat)
    requires n <= left
    requires forall k: nat :: at <= k < at + n - 1 ==> net(k) != Acked
    requires n == left || (n > 0 && net(at + n - 1) == Acked)
    ensures Tries(net, at, left) == n
    decreases left
  {
    if n > 1 {
      assert net(at) != Acked;
      TriesAre(net, at + 1, left - 1, n - 1);
    } else if n == 1 && net(at) != Acked {
      assert Tries(net, at + 1, 0) == 0;
    }
  }

  /** The number of the request that first carries chunk `i`, when the upload's first is number `at`. */
  function Start(net: nat -> Outcome, at: nat, i: nat): (n: nat)
    ensures at <= n <= at + MAX_RETRIES * i
  {
    if i == 0 then at else Start(net, at, i - 1) + Tries(net, Start(net, at, i - 1), MAX_RETRIES)
  }

  // ---- the hub and the client ----

  class Hub {
    const net: nat -> Outcome
    var requests: nat
    var total: nat
    var chunks: map<nat, Bytes>
    var assembled: Option<Bytes>

    constructor (net: nat -> Outcome)
      ensures this.net == net && requests == 0 && assembled == None
    {
      this.net := net;
      requests, total, chunks, assembled := 0, 0, map[], None;
    }

    method Init(totalChunks: nat)
      modifies this
      ensures total == totalChunks && chunks == map[] && requests == old(requests) && assembled == None
    {
      total, chunks, assembled := totalChunks, map[], None;
    }

    /** One chunk request: stored whenever it arrives and is accepted, whether or not the answer makes it back. */
    method PostChunk(index: nat, data: Bytes) returns (ok: bool)
      requires index < total
      modifies this`requests, this`chunks
      ensures requests == old(requests) + 1
      ensures ok == (net(old(requests)) == Acked)
      ensures chunks == if net(old(requests)) == Acked || net(old(requests)) == AnswerLost
                        then old(chunks)[index := data] else old(chunks)
    {
      var o := net(requests);
      requests := requests + 1;
      if o == Acked || o == AnswerLost { chunks := chunks[index := data]; }
      ok := o == Acked;
    }

    /** Assembles the table, or refuses if a chunk is missing; `answered` says whether the answer makes it back. */
    method Complete(answered: bool) returns (bytes: Option<Bytes>)
      modifies this`assembled
      ensures if forall i: nat :: i < total ==> i in chunks
              then assembled == Some(Assemble(chunks, total)) && bytes == (if answered then assembled else None)
              else assembled == old(assembled) && bytes == None
    {
      var i := 0;
      var out: Bytes := [];
      while i < total
        invariant i <= total
        invariant forall j: nat :: j < i ==> j in chunks
        invariant out == Assemble(chunks, i)
      {
        if i !in chunks { return None; }
        out := out + chunks[i];
        i := i + 1;
      }
      assembled := Some(out);
      bytes := if answered then assembled else None;
    }
  }

  /** Every chunk the hub holds is the right one. */
  ghost predicate Faithful(file: Bytes, chunks: map<nat, Bytes>, total: nat) {
    forall i :: i in chunks ==> i < total && chunks[i] == Slice(file, i)
  }

  /** None of the `n` requests from number `first` on is answered. */
  ghost predicate NoneAcked(net: nat -> Outcome, first: nat, n: nat) {
    forall k: nat :: first <= k < first + n ==> net(k) != Acked
  }

  /** What `n` attempts come to, the last one answered or all six spent. */
  lemma AttemptsAre(net: nat -> Outcome, first: nat, n: nat, sent: bool)
    requires n <= MAX_RETRIES && (sent || n == MAX_RETRIES)
    requires if sent then n > 0 && net(first + n - 1) == Acked && NoneAcked(net, first, n - 1) else NoneAcked(net, first, n)
    ensures sent <==> Gets(net, first)
    ensures n == Tries(net, first, MAX_RETRIES) && Waited(n) <= 44000
  {
    WaitedAtMost(n);
    TriesAre(net, first, MAX_RETRIES, n);
  }

  /** The retry loop for one chunk. */
  method SendChunk(file: Bytes, hub: Hub, index: nat) returns (sent: bool, waited: nat)
    requires index < hub.total
    requires Faithful(file, hub.chunks, hub.total)
    modifies hub`requests, hub`chunks
    ensures Faithful(file, hub.chunks, hub.total) && old(hub.chunks.Keys) <= hub.chunks.Keys
    ensures sent ==> index in hub.chunks
    ensures sent <==> Gets(hub.net, old(hub.requests))
    ensures hub.requests == old(hub.requests) + Tries(hub.net, old(hub.requests), MAX_RETRIES)
    ensures waited == Waited(Tries(hub.net, old(hub.requests), MAX_RETRIES)) <= 44000
  {
    var chunk := Slice(file, index);
    ghost var first := hub.requests;
    var attempt := 0;
    sent, waited := false, 0;
    while attempt < MAX_RETRIES && !sent
      invariant attempt <= MAX_RETRIES && hub.requests == first + attempt
      invariant Faithful(file, hub.chunks, hub.total) && old(hub.chunks.Keys) <= hub.chunks.Keys
      invariant sent ==> attempt > 0 && hub.net(first + attempt - 1) == Acked && index in hub.chunks
      invariant NoneAcked(hub.net, first, if sent then attempt - 1 else attempt)
      invariant waited == Waited(attempt)
    {
      waited := waited + Backoff(attempt);
      sent := hub.PostChunk(index, chunk);
      attempt := attempt + 1;
    }
    AttemptsAre(hub.net, first, attempt, sent);
  }

  /** The first `n` chunks are all answered within six attempts. */
  ghost predicate GetsAll(net: nat -> Outcome, at: nat, n: nat) {
    forall i: nat :: i < n ==> Gets(net, Start(net, at, i))
  }

  lemma GetsAllSnoc(net: nat -> Outcome, at: nat, n: nat)
    requires GetsAll(net, at, n) && Gets(net, Start(net, at, n))
    ensures GetsAll(net, at, n + 1)
  {
    forall i: nat | i < n + 1 ensures Gets(net, Start(net, at, i)) {
      assert i == n || i < n;
    }
  }

  /** The first `n` chunks are all in the hub's table. */
  ghost predicate Stored(chunks: map<nat, Bytes>, n: nat) {
    forall i: nat :: i < n ==> i in chunks
  }

  lemma StoredSnoc(was: map<nat, Bytes>, now: map<nat, Bytes>, n: nat)
    requires Stored(was, n) && was.Keys <= now.Keys && n in now
    ensures Stored(now, n + 1)
  {
  }

  /** Progress is reported as 1, 2, 3, … */
  ghost predicate CountsUp(progress: seq<nat>) {
    forall k :: 0 <= k < |progress| ==> progress[k] == k + 1
  }

  lemma CountsUpSnoc(progress: seq<nat>)
    requires CountsUp(progress)
    ensures CountsUp(progress + [|progress| + 1])
  {
  }

  /** No chunk waited longer than 44 seconds. */
  ghost predicate Short(waits: seq<nat>) {
    forall k :: 0 <= k < |waits| ==> waits[k] <= 44000
  }

  lemma ShortSnoc(waits: seq<nat>, w: nat)
    requires Short(waits) && w <= 44000
    ensures Short(waits + [w])
  {
  }

  /** One turn of the loop over the chunks, the upload's first request having been number `at`. */
  method SendNext(file: Bytes, hub: Hub, index: nat, ghost at: nat) returns (ok: bool, waited: nat)
    requires index < hub.total
    requires Faithful(file, hub.chunks, hub.total) && Stored(hub.chunks, index)
    requires GetsAll(hub.net, at, index) && hub.requests == Start(hub.net, at, index)
    modifies hub`requests, hub`chunks
    ensures Faithful(file, hub.chunks, hub.total) && waited <= 44000
    ensures hub.requests == Start(hub.net, at, index + 1)
    ensures ok ==> Stored(hub.chunks, index + 1) && GetsAll(hub.net, at, index + 1)
    ensures !ok ==> !Gets(hub.net, Start(hub.net, at, index))
  {
    ghost var before := hub.chunks;
    ok, waited := SendChunk(file, hub, index);
    if ok {
      GetsAllSnoc(hub.net, at, index);
      StoredSnoc(before, hub.chunks, index);
    }
  }

  /** The loop over the chunks: gives up at the first one that six attempts cannot get through. */
  method SendAll(file: Bytes, hub: Hub) returns (sent: nat, progress: seq<nat>, waits: seq<nat>)
    requires Faithful(file, hub.chunks, hub.total)
    modifies hub`requests, hub`chunks
    ensures Faithful(file, hub.chunks, hub.total)
    ensures sent <= hub.total && GetsAll(hub.net, old(hub.requests), sent)
    ensures sent < hub.total ==> !Gets(hub.net, Start(hub.net, old(hub.requests), sent))
    ensures sent == hub.total ==> Stored(hub.chunks, sent)
    ensures hub.requests == Start(hub.net, old(hub.requests), if sent < hub.total then sent + 1 else sent)
    ensures |progress| == sent && CountsUp(progress)
    ensures |waits| <= hub.total && Short(waits)
  {
    ghost var at := hub.requests;
    progress, waits, sent := [], [], 0;
    while sent < hub.total
      invariant sent <= hub.total && |waits| == sent
      invariant Faithful(file, hub.chunks, hub.total)
      invariant Stored(hub.chunks, sent)
      invariant GetsAll(hub.net, at, sent)
      invariant hub.requests == Start(hub.net, at, sent)
      invariant |progress| == sent && CountsUp(progress)
      invariant Short(waits)
    {
      var ok, waited := SendNext(file, hub, sent, at);
      ShortSnoc(waits, waited);
      waits := waits + [waited];
      if !ok { return; }
      CountsUpSnoc(progress);
      progress := progress + [sent + 1];
      sent := sent + 1;
    }
  }

  method UploadChunked(file: Bytes, hub: Hub, initOk: bool, completeAnswered: bool)
      returns (r: Result, progress: seq<nat>, waits: seq<nat>)
    modifies hub
    // Success exactly when every request the upload cannot do without is answered …
    ensures r.Uploaded? <==>
            initOk && completeAnswered && GetsAll(hub.net, old(hub.requests), TotalChunks(|file|))
    // … a failed chunk is the first that six attempts could not get through …
    ensures r.ChunkFailed? ==>
            && r.index < TotalChunks(|file|) && GetsAll(hub.net, old(hub.requests), r.index)
            && !Gets(hub.net, Start(hub.net, old(hub.requests), r.index))
    ensures r.InitFailed? <==> !initOk
    // … and "complete" is posted only over a table that concatenates to the file.
    ensures r.Uploaded? ==> r.bytes == file
    ensures r.Uploaded? || r.CompleteFailed? ==> hub.assembled == Some(file)
    ensures r.ChunkFailed? ==> hub.assembled == None
    ensures initOk ==> Faithful(file, hub.chunks, TotalChunks(|file|))
    ensures hub.requests <= old(hub.requests) + 6 * TotalChunks(|file|)
    ensures |waits| <= TotalChunks(|file|) && Short(waits)
    ensures CountsUp(progress)
    ensures |progress| == match r
                          case InitFailed => 0
                          case ChunkFailed(i) => i
                          case _ => TotalChunks(|file|)
  {
    if !initOk { return InitFailed, [], []; }
    var total := TotalChunks(|file|);
    hub.Init(total);
    var sent;
    sent, progress, waits := SendAll(file, hub);
    if sent < total { return ChunkFailed(sent), progress, waits; }
    AssembleSlices(file, hub.chunks, total);
    assert file[..|file|] == file;
    var bytes := hub.Complete(completeAnswered);
    r := if bytes.Some? then Uploaded(bytes.value) else CompleteFailed;
  }
}
