/** Streaming a source of unknown length to the object store as a multipart upload, one part-sized
    buffer at a time, whatever the lengths of the individual reads. */
module Multipart {

  const MIN_PART_SIZE: nat := 5 * 1024 * 1024
  const U16: nat := 0x1_0000

  type Byte = x: nat | x < 256

  datatype ReadResult = Got(n: nat) | ReadError

  /** A reader that delivers `data` in pieces of its own choosing and breaks at `failsAt`, if the
      data reaches that far. */
  class Reader {
    const data: seq<Byte>
    const failsAt: nat
    var pos: nat

    ghost predicate Valid()
      reads this
    {
      pos <= |data|
    }

    constructor (data: seq<Byte>, failsAt: nat)
      ensures Valid() && pos == 0 && this.data == data && this.failsAt == failsAt
    {
      this.data, this.failsAt, pos := data, failsAt, 0;
    }

    /** Reads into `buf[from..]`: at least one byte unless the source is exhausted. */
    method Read(buf: array<Byte>, from: nat) returns (r: ReadResult)
      requires Valid() && from < buf.Length
      modifies this, buf
      ensures Valid() && old(pos) <= pos
      ensures buf[..from] == old(buf[..from])
      ensures r.ReadError? <==> failsAt <= old(pos)
      ensures r.ReadError? ==> pos == old(pos)
      ensures r.Got? ==> pos == old(pos) + r.n && from + r.n <= buf.Length
      ensures r.Got? ==> buf[from..from + r.n] == data[old(pos)..pos]
      ensures r.Got? ==> (r.n == 0 <==> old(pos) == |data|)
    {
      if failsAt <= pos {
        return ReadError;
      }
      if pos == |data| {
        return Got(0);
      }
      var n :| 1 <= n <= |data| - pos && n <= buf.Length - from;
      forall i | 0 <= i < n {
        buf[from + i] := data[pos + i];
      }
      pos := pos + n;
      r := Got(n);
    }
  }

  datatype Part = Part(number: nat, body: seq<Byte>)

  /** The source cut into full parts and a last, possibly shorter one. */
  function Chunks(data: seq<Byte>, size: nat): (r: seq<seq<Byte>>)
    requires size > 0
    decreases |data|
  {
    if data == [] then []
    else if |data| <= size then [data]
    else [data[..size]] + Chunks(data[size..], size)
  }

  /** The parts of an upload: an empty source still uploads one empty part. */
  function Bodies(data: seq<Byte>, size: nat): (r: seq<seq<Byte>>)
    requires size > 0
  {
    if data == [] then [[]] else Chunks(data, size)
  }

  /** Part numbers as the `u16` counter gives them out. */
  function Numbered(bodies: seq<seq<Byte>>): (r: seq<Part>)
    ensures |r| == |bodies|
  {
    seq(|bodies|, i requires 0 <= i < |bodies| => Part((i + 1) % U16, bodies[i]))
  }

  datatype Upload = Uploaded(total: nat, hashed: seq<Byte>) | Failed

  /** `bodies` are the parts of the first `pos` bytes. */
  ghost predicate Progress(data: seq<Byte>, size: nat, bodies: seq<seq<Byte>>, pos: nat)
    requires size > 0
  {
    pos <= |data| && bodies + Chunks(data[pos..], size) == Chunks(data, size)
  }

  lemma NextChunk(data: seq<Byte>, size: nat, pos: nat, filled: nat)
    requires size > 0 && 0 < filled <= size && pos + filled <= |data| && (filled == size || pos + filled == |data|)
    ensures Chunks(data[pos..], size) == [data[pos..pos + filled]] + Chunks(data[pos + filled..], size)
  {
    var rest, body := data[pos..], data[pos..pos + filled];
    assert rest[..filled] == body;
    if |rest| <= size {
      assert rest == body && data[pos + filled..] == [];
    } else {
      assert rest[size..] == data[pos + filled..];
    }
  }

  lemma ProgressStep(data: seq<Byte>, size: nat, bodies: seq<seq<Byte>>, pos: nat, filled: nat)
    requires size > 0 && Progress(data, size, bodies, pos)
    requires 0 < filled <= size && pos + filled <= |data| && (filled == size || pos + filled == |data|)
    ensures var body := data[pos..pos + filled];
            && Progress(data, size, bodies + [body], pos + filled)
            && Numbered(bodies + [body]) == Numbered(bodies) + [Part((|bodies| + 1) % U16, body)]
            && data[..pos] + body == data[..pos + filled]
  {
    var rest, body := data[pos..], data[pos..pos + filled];
    NextChunk(data, size, pos, filled);
    assert (bodies + [body]) + Chunks(data[pos + filled..], size) == bodies + Chunks(rest, size);
  }

  lemma ProgressIsPrefix(data: seq<Byte>, size: nat, bodies: seq<seq<Byte>>, pos: nat)
    requires size > 0 && Progress(data, size, bodies, pos)
    ensures Numbered(bodies) <= Numbered(Bodies(data, size))
    ensures pos == |data| ==> bodies == Chunks(data, size)
  {
    assert bodies == Chunks(data, size)[..|bodies|];
    if pos == |data| { assert data[pos..] == []; }
  }

  lemma MoreToCome(data: seq<Byte>, size: nat, bodies: seq<seq<Byte>>, pos: nat)
    requires size > 0 && Progress(data, size, bodies, pos) && pos < |data|
    ensures |bodies| < |Bodies(data, size)|
  {
    assert |Chunks(data, size)| == |bodies| + |Chunks(data[pos..], size)|;
  }

  /** Fills the buffer from the source: short reads only mean "not yet the end". */
  method FillPart(src: Reader, buf: array<Byte>) returns (ok: bool, filled: nat)
    requires src.Valid() && buf.Length > 0
    modifies src, buf
    ensures src.Valid() && src.pos >= old(src.pos)
    ensures ok ==> filled <= buf.Length && src.pos == old(src.pos) + filled
    ensures ok ==> buf[..filled] == src.data[old(src.pos)..src.pos]
    ensures ok ==> filled == buf.Length || src.pos == |src.data|
    ensures ok && filled < buf.Length ==> src.failsAt > |src.data|
    ensures !ok ==> src.failsAt <= |src.data|
  {
    ghost var start := src.pos;
    filled := 0;
    while filled < buf.Length
      invariant src.Valid() && filled <= buf.Length
      invariant src.pos == start + filled
      invariant buf[..filled] == src.data[start..src.pos]
      decreases |src.data| - src.pos
    {
      var r := src.Read(buf, filled);
      match r {
        case ReadError => return false, filled;
        case Got(n) =>
          if n == 0 {
            return true, filled;
          }
          assert buf[..filled + n] == buf[..filled] + buf[filled..filled + n];
          assert src.data[start..src.pos] == src.data[start..start + filled] + src.data[start + filled..src.pos];
          filled := filled + n;
      }
    }
    ok := true;
  }

  /** The `u16` counter after `n` parts, and whether its increment has overflowed. */
  predicate Counter(n: nat, partNumber: nat, wrapped: bool) {
    partNumber == (n + 1) % U16 && (wrapped <==> n >= U16 - 1)
  }

  lemma CounterStep(n: nat, partNumber: nat, wrapped: bool)
    requires Counter(n, partNumber, wrapped)
    ensures Counter(n + 1, (partNumber + 1) % U16, wrapped || partNumber + 1 == U16)
  {
  }

  /** The source breaks before its end is seen, or the store turns a part down (0 is the first). */
  predicate PartsFail(data: seq<Byte>, failsAt: nat, size: nat, refused: set<nat>)
    requires size > 0
  {
    failsAt <= |data| || exists k | k in refused :: k < |Bodies(data, size)|
  }

  /** `refused`: which parts the store turns down. What has been uploaded when it stops is always the
      beginning of the right parts, and on success all of them. `wrapped`: the counter's increment
      overflowed, which it first does after the 65535th part. */
  method UploadAllParts(src: Reader, partSize: nat, refused: set<nat>)
    returns (r: Upload, parts: seq<Part>, wrapped: bool)
    requires src.Valid() && src.pos == 0 && partSize > 0
    modifies src
    ensures parts <= Numbered(Bodies(src.data, partSize))
    ensures r.Uploaded? ==>
              && parts == Numbered(Bodies(src.data, partSize))
              && r.total == |src.data| && r.hashed == src.data
    ensures r.Failed? <==> PartsFail(src.data, src.failsAt, partSize, refused)
    ensures wrapped <==> |parts| >= U16 - 1
  {
    var data := src.data;
    var bodies: seq<seq<Byte>> := [];
    var total, hashed := 0, [];
    var partNumber: nat := 1;
    var buf := new Byte[partSize](i => 0);
    parts, wrapped := [], false;
    var more := true;
    assert Progress(data, partSize, bodies, 0) by { assert data[0..] == data; }
    while more
      invariant src.Valid()
      invariant Progress(data, partSize, bodies, src.pos)
      invariant parts == Numbered(bodies) && Counter(|bodies|, partNumber, wrapped)
      invariant total == src.pos && hashed == data[..src.pos]
      invariant !more ==> src.pos == |data| < src.failsAt
      invariant forall k | k in refused :: k >= |bodies|
      decreases |data| - src.pos, more
    {
      ghost var start := src.pos;
      ProgressIsPrefix(data, partSize, bodies, start);
      var ok, filled := FillPart(src, buf);
      if !ok {
        return Failed, parts, wrapped;
      }
      if filled == 0 {
        more := false;
      } else {
        var body := buf[..filled];
        ProgressStep(data, partSize, bodies, start, filled);
        hashed := hashed + body;
        total := total + filled;
        if |parts| in refused {
          MoreToCome(data, partSize, bodies, start);
          return Failed, parts, wrapped;
        }
        CounterStep(|bodies|, partNumber, wrapped);
        parts := parts + [Part(partNumber, body)];
        bodies := bodies + [body];
        wrapped := wrapped || partNumber + 1 == U16;
        partNumber := (partNumber + 1) % U16;
        more := filled == partSize;
      }
    }
    ProgressIsPrefix(data, partSize, bodies, src.pos);
    assert data[..src.pos] == data;
    if parts == [] {
      if 0 in refused {
        return Failed, parts, wrapped;
      }
      parts := [Part(1, [])];
    }
    r := Uploaded(total, hashed);
  }

  // ---- What the parts are ----

  function Flatten(bodies: seq<seq<Byte>>): (r: seq<Byte>) {
    if bodies == [] then [] else bodies[0] + Flatten(bodies[1..])
  }

  lemma {:induction false} ChunksAreTheSource(data: seq<Byte>, size: nat)
    requires size > 0
    ensures Flatten(Chunks(data, size)) == data
    decreases |data|
  {
    if data == [] {
    } else if |data| <= size {
      assert [data][1..] == [] && Flatten([data]) == data + Flatten([]);
    } else {
      var rest := data[size..];
      ChunksAreTheSource(rest, size);
      assert ([data[..size]] + Chunks(rest, size))[1..] == Chunks(rest, size);
      assert data == data[..size] + rest;
    }
  }

  /** All but the last are full, and the last is not empty. */
  ghost predicate Full(bodies: seq<seq<Byte>>, size: nat) {
    && bodies != []
    && (forall i | 0 <= i < |bodies| - 1 :: |bodies[i]| == size)
    && 0 < |bodies[|bodies| - 1]| <= size
  }

  lemma FullGrows(body: seq<Byte>, bodies: seq<seq<Byte>>, size: nat)
    requires |body| == size && Full(bodies, size)
    ensures Full([body] + bodies, size)
  {
  }

  lemma {:induction false} ChunksAreFull(data: seq<Byte>, size: nat)
    requires size > 0 && data != []
    ensures Full(Chunks(data, size), size)
    decreases |data|
  {
    if |data| > size {
      ChunksAreFull(data[size..], size);
      FullGrows(data[..size], Chunks(data[size..], size), size);
    }
  }

  lemma {:induction false} ChunkCount(data: seq<Byte>, size: nat)
    requires size > 0 && data != []
    ensures (|Chunks(data, size)| - 1) * size < |data| <= |Chunks(data, size)| * size
    decreases |data|
  {
    if |data| <= size {
      assert |Chunks(data, size)| == 1;
    } else {
      ChunkCount(data[size..], size);
      OneMore(|Chunks(data[size..], size)|, size);
    }
  }

  lemma OneMore(n: nat, size: nat)
    ensures (n + 1 - 1) * size == (n - 1) * size + size && (n + 1) * size == n * size + size
  {
  }

  /** For any source and any part size: the parts, in order, are exactly the source; all but the last
      are full and the last is not empty, unless the source is; there is at least one; and there are
      as many as it takes. */
  lemma PartsAreTheSource(data: seq<Byte>, size: nat)
    requires size > 0
    ensures var b := Bodies(data, size);
            && Flatten(b) == data
            && |b| >= 1
            && (data != [] ==> (|b| - 1) * size < |data| <= |b| * size)
            && (forall i | 0 <= i < |b| - 1 :: |b[i]| == size)
            && |b[|b| - 1]| <= size
            && (data != [] ==> 0 < |b[|b| - 1]|)
  {
    if data == [] {
      var none: seq<seq<Byte>> := [];
      assert Bodies(data, size)[1..] == none && Flatten(none) == [];
    } else {
      ChunksAreTheSource(data, size);
      ChunksAreFull(data, size);
      ChunkCount(data, size);
    }
  }

  /** The `u16` counter numbers the parts 1, 2, 3, .. exactly up to 65535 of them. */
  lemma NumbersAreSequential(bodies: seq<seq<Byte>>)
    ensures (forall i | 0 <= i < |bodies| :: Numbered(bodies)[i].number == i + 1) <==> |bodies| <= 65535
  {
    if |bodies| >= U16 {
      assert Numbered(bodies)[U16 - 1].number == 0;
    }
  }

  // ---- The whole upload ----

  /** What came of the initiating request: no upload was made, one was made but its id did not arrive in
      a readable answer, or one was made. */
  datatype Initiate = NotMade | IdLost | Made

  /** How the final request ended: not answered, refused, answered without a readable body, answered
      with an error inside a success status, or accepted. Whatever the client saw, the store may have
      assembled the object. */
  datatype Completion =
    | NoAnswer(assembled: bool)
    | BadStatus(assembled: bool)
    | BodyLost(assembled: bool)
    | ErrorBody(assembled: bool)
    | Accepted

  predicate Assembled(c: Completion) {
    c.Accepted? || c.assembled
  }

  /** Where the caller stopped driving the call, if it did: while the upload was being initiated (it may
      have been made), somewhere in the upload of the parts, while it was being completed (the object may
      have been assembled), or while it was being aborted. A point the call does not reach has no effect. */
  datatype Drop = Never | Initiating(made: bool) | Uploading | Completing(assembled: bool) | Aborting

  datatype Put = Stored(total: nat, hashed: seq<Byte>) | NotStored | Dropped

  function PartSize(requested: nat): (r: nat)
    ensures requested >= 5242880 ==> r == requested
    ensures requested < 5242880 ==> r == 5242880
  {
    if requested < MIN_PART_SIZE then MIN_PART_SIZE else requested
  }

  /** An abort is due: the parts failed, or the store answered the completing request with an error. */
  predicate AbortDue(fail: bool, completion: Completion) {
    fail || completion.BadStatus? || completion.ErrorBody?
  }

  /** Is the call dropped? `fail`: would the parts fail. */
  predicate DropsOut(drop: Drop, initiate: Initiate, fail: bool, completion: Completion) {
    match drop
    case Never => false
    case Initiating(_) => true
    case Uploading => initiate.Made?
    case Completing(_) => initiate.Made? && !fail
    case Aborting => initiate.Made? && AbortDue(fail, completion)
  }

  /** Is an abort sent? */
  predicate SendsAbort(drop: Drop, initiate: Initiate, fail: bool, completion: Completion) {
    && initiate.Made? && AbortDue(fail, completion)
    && (DropsOut(drop, initiate, fail, completion) ==> drop.Aborting?)
  }

  /** Does the object exist afterwards? */
  predicate MakesObject(drop: Drop, initiate: Initiate, fail: bool, completion: Completion) {
    && initiate.Made? && !fail && !drop.Initiating? && !drop.Uploading?
    && if drop.Completing? then drop.assembled else Assembled(completion)
  }

  /** Is the upload left behind in the store? It was made, no object came of it, and no abort was carried
      out. */
  predicate LeftBehind(drop: Drop, initiate: Initiate, fail: bool, completion: Completion, abortWorks: bool) {
    && (if drop.Initiating? then drop.made else !initiate.NotMade?)
    && !MakesObject(drop, initiate, fail, completion)
    && !(SendsAbort(drop, initiate, fail, completion) && abortWorks)
  }

  /** `abortWorks`: does the store carry out an abort. `stored`: the parts of the object the upload made,
      if any; past 65535 parts their numbers repeat, and they are an object only for a store that takes
      them so. `abortSent`: was an abort sent. `open`: is the upload left behind in the store. */
  method PutMultipartStreaming(
    src: Reader, requested: nat, initiate: Initiate, refused: set<nat>, completion: Completion, abortWorks: bool,
    drop: Drop)
    returns (r: Put, stored: seq<Part>, abortSent: bool, open: bool)
    requires src.Valid() && src.pos == 0
    modifies src
    ensures var fail := PartsFail(src.data, src.failsAt, PartSize(requested), refused);
            && (r.Dropped? <==> DropsOut(drop, initiate, fail, completion))
            && (r.Stored? <==> initiate.Made? && !fail && completion.Accepted? && !r.Dropped?)
            && (stored != [] <==> MakesObject(drop, initiate, fail, completion))
            && (abortSent <==> SendsAbort(drop, initiate, fail, completion))
            && (open <==> LeftBehind(drop, initiate, fail, completion, abortWorks))
    ensures r.Stored? ==> r.total == |src.data| && r.hashed == src.data
    ensures stored != [] ==> stored == Numbered(Bodies(src.data, PartSize(requested)))
  {
    stored, abortSent, open := [], false, !initiate.NotMade?;
    r := NotStored;
    if drop.Initiating? {
      return Dropped, stored, abortSent, drop.made;
    }
    if !initiate.Made? {
      return;
    }
    if drop.Uploading? {
      return Dropped, stored, abortSent, open;
    }
    var up, parts, wrapped := UploadAllParts(src, PartSize(requested), refused);
    if up.Failed? {
      r := if drop.Aborting? then Dropped else NotStored;
      abortSent, open := true, !abortWorks;
      return;
    }
    if drop.Completing? {
      stored := if drop.assembled then parts else [];
      return Dropped, stored, abortSent, !drop.assembled;
    }
    if completion.Accepted? || completion.assembled {
      stored, open := parts, false;
    }
    if completion.BadStatus? || completion.ErrorBody? {
      r := if drop.Aborting? then Dropped else NotStored;
      abortSent, open := true, open && !abortWorks;
    } else if completion.Accepted? {
      r := Stored(up.total, up.hashed);
    }
  }

  /** "Aborts the upload on any error", exactly: with a store that carries out aborts, an upload is left
      behind if and only if the id was lost, the final answer was lost before the object was assembled, or
      the call was dropped before it was complete. Dropping it while the parts go up always leaves one. */
  lemma LeftBehindIff(drop: Drop, initiate: Initiate, fail: bool, completion: Completion)
    ensures LeftBehind(drop, initiate, fail, completion, true)
       <==> || drop == Initiating(true)
            || (!drop.Initiating? && initiate.IdLost?)
            || (drop.Uploading? && initiate.Made?)
            || (initiate.Made? && !fail && drop == Completing(false))
            || (&& initiate.Made? && !fail && (drop.Never? || drop.Aborting?)
                && (completion == NoAnswer(false) || completion == BodyLost(false)))
  {
  }
}
