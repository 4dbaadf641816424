/** The byte buffer of a PTY session: a bounded deque of chunks (mcp_ssh/session.py). */
module PtyBuffer {
  import opened Seqs

  type Chunk = seq<bv8>

  /** The bound of the deque, in chunks. */
  const MAX_CHUNKS: nat := 65536

  /** The buffered bytes, oldest first. */
  function Flat(chunks: seq<Chunk>): Chunk {
    if chunks == [] then [] else chunks[0] + Flat(chunks[1..])
  }

  lemma {:induction false} FlatConcat(a: seq<Chunk>, b: seq<Chunk>)
    ensures Flat(a + b) == Flat(a) + Flat(b)
  {
    if a == [] {
      assert a + b == b;
    } else {
      FlatConcat(a[1..], b);
      RestOfConcat(a, b);
      Associates(a[0], Flat(a[1..]), Flat(b));
    }
  }

  function Min(a: int, b: int): int {
    if a < b then a else b
  }

  /** How many bytes a read of at most `maxBytes` takes. */
  function Taken(chunks: seq<Chunk>, maxBytes: int): (n: nat)
    ensures n <= |Flat(chunks)|
  {
    if maxBytes < 0 then 0 else Min(maxBytes, |Flat(chunks)|)
  }

  /** How bytes leave the buffer: read by a caller, or pushed out by newer ones. */
  datatype Exit = Delivered(bytes: Chunk) | Evicted(bytes: Chunk)

  function ExitBytes(exits: seq<Exit>): Chunk {
    if exits == [] then [] else ExitBytes(exits[..|exits| - 1]) + exits[|exits| - 1].bytes
  }

  /** The chunks, everything ever drained into them, and everything that left, in order. */
  datatype Buffer = Buffer(chunks: seq<Chunk>, drained: Chunk, exits: seq<Exit>)

  /** Nothing is lost, doubled or reordered, and the bound holds. */
  ghost predicate Conserved(b: Buffer) {
    && |b.chunks| <= MAX_CHUNKS
    && ExitBytes(b.exits) + Flat(b.chunks) == b.drained
  }

  /** A change of the buffer that only records one more exit and one more piece of input. */
  ghost predicate Moves(b': Buffer, b: Buffer, drained: Chunk, exits: seq<Exit>) {
    b'.drained == b.drained + drained && b'.exits == b.exits + exits
  }

  /** `b'` is `b` after a drained chunk arrived: a full deque first loses its oldest chunk. */
  ghost predicate Drains(b': Buffer, b: Buffer, chunk: Chunk) {
    if |b.chunks| == MAX_CHUNKS
    then Moves(b', b, chunk, [Evicted(b.chunks[0])]) && b'.chunks == b.chunks[1..] + [chunk]
    else Moves(b', b, chunk, []) && b'.chunks == b.chunks + [chunk]
  }

  /** `b'` is `b` after a read of at most `maxBytes`: exactly the oldest bytes are delivered, and none evicted. */
  ghost predicate Reads(b': Buffer, b: Buffer, maxBytes: int, output: Chunk) {
    var n := Taken(b.chunks, maxBytes);
    && output == Flat(b.chunks)[..n]
    && Flat(b'.chunks) == Flat(b.chunks)[n..]
    && |b'.chunks| <= |b.chunks|
    && Moves(b', b, [], [Delivered(output)])
  }

  lemma DrainConserves(b': Buffer, b: Buffer, chunk: Chunk)
    requires Conserved(b) && Drains(b', b, chunk)
    ensures Conserved(b')
  {
    if |b.chunks| == MAX_CHUNKS {
      FlatConcat(b.chunks[1..], [chunk]);
      assert b'.exits[..|b.exits|] == b.exits;
      assert Flat([chunk]) == chunk;
      calc {
        ExitBytes(b'.exits) + Flat(b'.chunks);
        (ExitBytes(b.exits) + b.chunks[0]) + (Flat(b.chunks[1..]) + chunk);
        (ExitBytes(b.exits) + (b.chunks[0] + Flat(b.chunks[1..]))) + chunk;
        b'.drained;
      }
    } else {
      FlatConcat(b.chunks, [chunk]);
      assert b.exits + [] == b.exits;
      assert Flat([chunk]) == chunk;
      assert ExitBytes(b.exits) + (Flat(b.chunks) + chunk) == (ExitBytes(b.exits) + Flat(b.chunks)) + chunk;
    }
  }

  /** Only a deque of 65536 chunks evicts, and it evicts its oldest chunk; the new bytes come last. */
  lemma EvictsOnlyWhenFull(b': Buffer, b: Buffer, chunk: Chunk)
    requires Conserved(b) && Drains(b', b, chunk)
    ensures var full := |b.chunks| >= 65536;
            && b'.exits == b.exits + (if full then [Evicted(b.chunks[0])] else [])
            && Flat(b'.chunks) == Flat(if full then b.chunks[1..] else b.chunks) + chunk
  {
    FlatConcat(if |b.chunks| == MAX_CHUNKS then b.chunks[1..] else b.chunks, [chunk]);
    assert Flat([chunk]) == chunk + Flat([]) == chunk;
  }

  lemma ReadConserves(b': Buffer, b: Buffer, maxBytes: int, output: Chunk)
    requires Conserved(b) && Reads(b', b, maxBytes, output)
    ensures Conserved(b')
  {
    var n := Taken(b.chunks, maxBytes);
    var all := Flat(b.chunks);
    assert b'.exits[..|b.exits|] == b.exits;
    assert all[..n] + all[n..] == all;
    assert (ExitBytes(b.exits) + all[..n]) + all[n..] == ExitBytes(b.exits) + (all[..n] + all[n..]);
  }

  /** Taking a whole chunk off the front moves its bytes over. */
  lemma TakeWhole(collected: Chunk, chunks: seq<Chunk>)
    requires chunks != []
    ensures (collected + chunks[0]) + Flat(chunks[1..]) == collected + Flat(chunks)
  {
  }

  /** Taking part of the front chunk and pushing the rest back moves just that part over. */
  lemma TakePart(collected: Chunk, chunks: seq<Chunk>, n: nat)
    requires chunks != [] && n <= |chunks[0]|
    ensures (collected + chunks[0][..n]) + Flat([chunks[0][n..]] + chunks[1..]) == collected + Flat(chunks)
  {
    var front, back, rest := chunks[0][..n], chunks[0][n..], Flat(chunks[1..]);
    RestOfConcat([back], chunks[1..]);
    assert [back][1..] + chunks[1..] == chunks[1..];
    assert front + back == chunks[0];
    Associates(collected, front, back + rest);
    Associates(front, back, rest);
  }

  /** What was collected is the front of the old bytes, and what is left their rest. */
  lemma SplitsInTwo(collected: Chunk, left: Chunk, all: Chunk)
    requires collected + left == all
    ensures collected == all[..|collected|] && left == all[|collected|..]
  {
  }

  // ---- Every interleaving of the drain task and the readers ----

  datatype Op = Drain(chunk: Chunk) | Read(maxBytes: int)

  ghost predicate Step(b': Buffer, b: Buffer, op: Op) {
    match op
    case Drain(chunk) => Drains(b', b, chunk)
    case Read(maxBytes) => exists output :: Reads(b', b, maxBytes, output)
  }

  ghost predicate IsRun(states: seq<Buffer>, ops: seq<Op>) {
    && |states| == |ops| + 1 && states[0] == Buffer([], [], [])
    && forall i :: 0 <= i < |ops| ==> Step(states[i + 1], states[i], ops[i])
  }

  /** The bytes the drain task put in during a run. */
  function Drained(ops: seq<Op>): Chunk {
    if ops == [] then []
    else Drained(ops[..|ops| - 1]) + (if ops[|ops| - 1].Drain? then ops[|ops| - 1].chunk else [])
  }

  /** After any run, what left the buffer followed by what is still in it is exactly what was drained. */
  lemma {:induction false} RunConserves(states: seq<Buffer>, ops: seq<Op>)
    requires IsRun(states, ops)
    ensures var b := states[|ops|];
            Conserved(b) && ExitBytes(b.exits) + Flat(b.chunks) == Drained(ops)
  {
    if ops != [] {
      var n := |ops| - 1;
      assert IsRun(states[..|ops|], ops[..n]) by {
        forall i | 0 <= i < n
          ensures Step(states[..|ops|][i + 1], states[..|ops|][i], ops[..n][i])
        {
          assert Step(states[i + 1], states[i], ops[i]);
        }
      }
      RunConserves(states[..|ops|], ops[..n]);
      assert Step(states[n + 1], states[n], ops[n]);
      match ops[n]
      case Drain(chunk) =>
        DrainConserves(states[n + 1], states[n], chunk);
      case Read(maxBytes) =>
        var output :| Reads(states[n + 1], states[n], maxBytes, output);
        ReadConserves(states[n + 1], states[n], maxBytes, output);
    }
  }

  class Session {
    var chunks: seq<Chunk>
    ghost var drained: Chunk
    ghost var exits: seq<Exit>

    ghost function State(): Buffer
      reads this
    {
      Buffer(chunks, drained, exits)
    }

    constructor ()
      ensures State() == Buffer([], [], []) && Conserved(State())
    {
      chunks, drained, exits := [], [], [];
    }

    /** `append` on the bounded deque. */
    method Append(chunk: Chunk)
      requires Conserved(State())
      modifies this
      ensures Drains(State(), old(State()), chunk) && Conserved(State())
    {
      ghost var b := State();
      if |chunks| == MAX_CHUNKS {
        exits := exits + [Evicted(chunks[0])];
        chunks := chunks[1..];
      }
      chunks := chunks + [chunk];
      drained := drained + chunk;
      DrainConserves(State(), b, chunk);
    }

    /** `appendleft` on the bounded deque; a full one would lose its newest chunk. */
    method AppendLeft(chunk: Chunk) returns (evicted: bool)
      modifies this`chunks
      ensures evicted <==> |old(chunks)| == MAX_CHUNKS
      ensures !evicted ==> chunks == [chunk] + old(chunks)
    {
      evicted := |chunks| == MAX_CHUNKS;
      chunks := [chunk] + (if evicted then chunks[..|chunks| - 1] else chunks);
    }

    /** The buffer branch of pty_read. Pushing back the rest of a split chunk never evicts anything. */
    method PtyRead(maxBytes: int) returns (collected: Chunk)
      requires Conserved(State())
      modifies this
      ensures Reads(State(), old(State()), maxBytes, collected) && Conserved(State())
    {
      ghost var b := State();
      collected := [];
      while chunks != [] && |collected| < maxBytes
        invariant collected + Flat(chunks) == Flat(b.chunks)
        invariant |collected| <= Taken(b.chunks, maxBytes)
        invariant |chunks| <= |b.chunks|
        invariant drained == b.drained && exits == b.exits
        decreases |chunks|
      {
        ghost var before := chunks;
        var chunk := chunks[0];
        chunks := chunks[1..];
        var remaining := maxBytes - |collected|;
        if |chunk| <= remaining {
          TakeWhole(collected, before);
          collected := collected + chunk;
        } else {
          TakePart(collected, before, remaining);
          collected := collected + chunk[..remaining];
          var evicted := AppendLeft(chunk[remaining..]);
          break;
        }
      }
      SplitsInTwo(collected, Flat(chunks), Flat(b.chunks));
      exits := exits + [Delivered(collected)];
      ReadConserves(State(), b, maxBytes, collected);
    }
  }
}
