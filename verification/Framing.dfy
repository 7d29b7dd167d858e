/** Length-prefixed framing over a byte stream (shared/lan-frame.ts). */
module Framing {
  import opened Ids
  import opened Packet

  const FRAME_HEADER := 2
  const MAX_FRAME := 0xffff

  function Encode(payload: Bytes): Bytes
    requires |payload| <= MAX_FRAME
  {
    [|payload| / 256, |payload| % 256] + payload
  }

  /** encodeFrame: None stands for the error thrown on an oversized payload. */
  method EncodeFrame(payload: Bytes) returns (r: Option<array<Byte>>)
    ensures r.None? <==> |payload| > MAX_FRAME
    ensures r.Some? ==> fresh(r.value) && r.value[..] == Encode(payload)
  {
    if |payload| > MAX_FRAME { return None; }
    var out := new Byte[FRAME_HEADER + |payload|];
    out[0], out[1] := |payload| / 256, |payload| % 256;
    for i := 0 to |payload|
      invariant out[..FRAME_HEADER + i] == Encode(payload)[..FRAME_HEADER + i]
    {
      out[FRAME_HEADER + i] := payload[i];
    }
    assert out[..] == out[..FRAME_HEADER + |payload|];
    return Some(out);
  }

  ghost function Wire(payloads: seq<Bytes>): Bytes
    requires forall p | p in payloads :: |p| <= MAX_FRAME
  {
    if payloads == [] then [] else Encode(payloads[0]) + Wire(payloads[1..])
  }

  // What is left of a stream once its complete frames are gone: no header yet, a
  // header over the limit, or a payload still short of its header.
  predicate Oversized(s: Bytes, maxFrame: nat) { |s| >= 2 && Word(s, 0) > maxFrame }

  predicate Stuck(s: Bytes, maxFrame: nat) {
    |s| < 2 || Oversized(s, maxFrame) || |s| < 2 + Word(s, 0)
  }

  ghost predicate Fits(payloads: seq<Bytes>, maxFrame: nat) {
    forall p | p in payloads :: |p| <= MAX_FRAME && |p| <= maxFrame
  }

  /** The maximal run of complete frames of a stream, and what is left of it. */
  ghost predicate IsCut(s: Bytes, maxFrame: nat, frames: seq<Bytes>, rest: Bytes) {
    Fits(frames, maxFrame) && Stuck(rest, maxFrame) && s == Wire(frames) + rest
  }

  lemma EncodedIsNotStuck(p: Bytes, more: Bytes, maxFrame: nat)
    requires |p| <= maxFrame && |p| <= MAX_FRAME
    ensures !Stuck(Encode(p) + more, maxFrame)
  {
    assert Word(Encode(p) + more, 0) == |p|;
  }

  lemma EncodeInjective(p: Bytes, a: Bytes, q: Bytes, b: Bytes)
    requires |p| <= MAX_FRAME && |q| <= MAX_FRAME
    requires Encode(p) + a == Encode(q) + b
    ensures p == q && a == b
  {
    var s := Encode(p) + a;
    assert Word(s, 0) == |p| && Word(s, 0) == |q|;
    assert p == s[2..2 + |p|] && q == s[2..2 + |p|];
    assert a == s[2 + |p|..] && b == s[2 + |p|..];
  }

  lemma CutFirst(s: Bytes, maxFrame: nat, f: seq<Bytes>, r: Bytes) returns (more: Bytes)
    requires IsCut(s, maxFrame, f, r) && f != []
    ensures s == Encode(f[0]) + more && IsCut(more, maxFrame, f[1..], r) && !Stuck(s, maxFrame)
  {
    more := Wire(f[1..]) + r;
    EncodedIsNotStuck(f[0], more, maxFrame);
    assert s == Encode(f[0]) + more;
  }

  lemma CutNothing(s: Bytes, maxFrame: nat, f: seq<Bytes>, r: Bytes)
    requires IsCut(s, maxFrame, f, r)
    ensures f == [] <==> Stuck(s, maxFrame)
    ensures f == [] ==> s == r
  {
    if f != [] {
      var more := CutFirst(s, maxFrame, f, r);
    } else {
      assert Wire([]) + r == r;
    }
  }

  /** There is only one such run. */
  lemma {:induction false} CutUnique(s: Bytes, maxFrame: nat, f: seq<Bytes>, r: Bytes, g: seq<Bytes>, q: Bytes)
    requires IsCut(s, maxFrame, f, r) && IsCut(s, maxFrame, g, q)
    ensures f == g && r == q
    decreases |f|
  {
    CutNothing(s, maxFrame, f, r);
    CutNothing(s, maxFrame, g, q);
    if f != [] {
      var a := CutFirst(s, maxFrame, f, r);
      var b := CutFirst(s, maxFrame, g, q);
      EncodeInjective(f[0], a, g[0], b);
      CutUnique(a, maxFrame, f[1..], r, g[1..], q);
      assert f == [f[0]] + f[1..] && g == [g[0]] + g[1..];
    }
  }

  lemma {:induction false} WireConcat(f: seq<Bytes>, g: seq<Bytes>)
    requires forall p | p in f + g :: |p| <= MAX_FRAME
    ensures Wire(f + g) == Wire(f) + Wire(g)
  {
    if f == [] {
      assert f + g == g;
    } else {
      assert forall p | p in f[1..] + g :: p in f + g;
      WireConcat(f[1..], g);
      assert (f + g)[1..] == f[1..] + g;
      Associative(Encode(f[0]), Wire(f[1..]), Wire(g));
    }
  }

  lemma Associative(a: Bytes, b: Bytes, c: Bytes)
    ensures a + (b + c) == (a + b) + c
  {}

  /** Cutting early and resuming on the rest loses nothing. */
  lemma CutResumes(s: Bytes, more: Bytes, maxFrame: nat, f: seq<Bytes>, r: Bytes, g: seq<Bytes>, q: Bytes)
    requires IsCut(s, maxFrame, f, r) && IsCut(r + more, maxFrame, g, q)
    ensures IsCut(s + more, maxFrame, f + g, q)
  {
    WireConcat(f, g);
    assert s + more == Wire(f) + (r + more);
  }

  class FrameReader {
    const maxFrame: nat
    var buf: Bytes
    var need: int // the payload length once the header is parsed, else -1

    // A reader that has thrown is torn down: it is no longer valid.
    ghost predicate Valid()
      reads this
    {
      -1 <= need <= maxFrame && need <= MAX_FRAME
    }

    // The bytes received and not yet delivered.
    ghost function Pending(): Bytes
      reads this
      requires Valid()
    {
      if need < 0 then buf else [need / 256, need % 256] + buf
    }

    constructor (maxFrame: nat := MAX_FRAME)
      ensures Valid() && Pending() == [] && this.maxFrame == maxFrame
    {
      this.maxFrame := maxFrame;
      buf, need := [], -1;
    }

    /** Delivers every complete frame of the stream so far, in order; throws exactly
        when the next header is over the limit. */
    method Push(chunk: Bytes) returns (frames: seq<Bytes>, threw: bool)
      requires Valid()
      modifies this
      ensures threw ==> Oversized(buf, maxFrame) && need == Word(buf, 0)
                        && IsCut(old(Pending()) + chunk, maxFrame, frames, buf)
      ensures !threw ==> Valid() && !Oversized(Pending(), maxFrame)
                         && IsCut(old(Pending()) + chunk, maxFrame, frames, Pending())
    {
      ghost var whole := Pending() + chunk;
      frames, threw := [], false;
      buf := buf + chunk;
      assert Pending() == whole;
      assert whole == Wire(frames) + Pending();
      while true
        invariant Valid() && !threw
        invariant Fits(frames, maxFrame) && whole == Wire(frames) + Pending()
        decreases |Pending()|
      {
        ghost var before := Pending();
        if need < 0 {
          if |buf| < FRAME_HEADER { return; }
          need := Word(buf, 0);
          if need > maxFrame {
            threw := true;
            return;
          }
          buf := buf[FRAME_HEADER..];
        }
        assert Pending() == before;
        if |buf| < need {
          assert Word(before, 0) == need;
          return;
        }
        AppendFrame(whole, frames, buf, need, before);
        frames := frames + [buf[..need]];
        buf := buf[need..];
        need := -1;
      }
    }
  }

  lemma AppendFrame(whole: Bytes, frames: seq<Bytes>, buf: Bytes, need: nat, before: Bytes)
    requires need <= MAX_FRAME && need <= |buf| && before == [need / 256, need % 256] + buf
    requires (forall p | p in frames :: |p| <= MAX_FRAME) && whole == Wire(frames) + before
    ensures whole == Wire(frames + [buf[..need]]) + buf[need..]
  {
    var p := buf[..need];
    WireConcat(frames, [p]);
    assert Wire([p]) == Encode(p) + Wire([]);
    assert before == Encode(p) + buf[need..];
  }

  /** What a run of pushes may deliver, by the contract of Push: the frames of each
      cut in turn, stopped by a throw. `pending` is what earlier pushes left over. */
  ghost predicate Delivers(pending: Bytes, chunks: seq<Bytes>, maxFrame: nat, frames: seq<Bytes>, threw: bool)
    decreases |chunks|
  {
    if chunks == [] then frames == [] && !threw else
      exists now, rest, later ::
        && IsCut(pending + chunks[0], maxFrame, now, rest)
        && frames == now + later
        && (if Oversized(rest, maxFrame) then later == [] && threw
            else Delivers(rest, chunks[1..], maxFrame, later, threw))
  }

  function Flatten(chunks: seq<Bytes>): Bytes {
    if chunks == [] then [] else chunks[0] + Flatten(chunks[1..])
  }

  lemma FlattenFirst(pending: Bytes, chunks: seq<Bytes>)
    requires chunks != []
    ensures pending + chunks[0] + Flatten(chunks[1..]) == pending + Flatten(chunks)
  {}

  /** The delivered output and the error depend on the bytes, not on the chunks. */
  lemma {:induction false} ChunkingIrrelevant(
    pending: Bytes, chunks: seq<Bytes>, maxFrame: nat, frames: seq<Bytes>, threw: bool, all: seq<Bytes>, rest: Bytes)
    requires Stuck(pending, maxFrame) && !Oversized(pending, maxFrame)
    requires Delivers(pending, chunks, maxFrame, frames, threw)
    requires IsCut(pending + Flatten(chunks), maxFrame, all, rest)
    ensures frames == all && threw == Oversized(rest, maxFrame)
    decreases |chunks|
  {
    if chunks == [] {
      CutNothing(pending + Flatten(chunks), maxFrame, all, rest);
      assert pending + Flatten(chunks) == pending;
    } else {
      var now, mid, later := FirstPush(pending, chunks, maxFrame, frames, threw);
      var tail := Flatten(chunks[1..]);
      FlattenFirst(pending, chunks);
      var g := CutAfter(pending + chunks[0], tail, maxFrame, now, mid, all, rest);
      if Oversized(mid, maxFrame) {
        OversizedStays(mid, tail, maxFrame, g, rest);
      } else {
        ChunkingIrrelevant(mid, chunks[1..], maxFrame, later, threw, g, rest);
      }
    }
  }

  lemma CutAfter(s: Bytes, more: Bytes, maxFrame: nat, f: seq<Bytes>, r: Bytes, all: seq<Bytes>, rest: Bytes)
    returns (g: seq<Bytes>)
    requires IsCut(s, maxFrame, f, r) && IsCut(s + more, maxFrame, all, rest)
    ensures IsCut(r + more, maxFrame, g, rest) && all == f + g
  {
    var q;
    g, q := CutExists(r + more, maxFrame);
    CutResumes(s, more, maxFrame, f, r, g, q);
    CutUnique(s + more, maxFrame, all, rest, f + g, q);
  }

  lemma FirstPush(pending: Bytes, chunks: seq<Bytes>, maxFrame: nat, frames: seq<Bytes>, threw: bool)
    returns (now: seq<Bytes>, rest: Bytes, later: seq<Bytes>)
    requires chunks != [] && Delivers(pending, chunks, maxFrame, frames, threw)
    ensures IsCut(pending + chunks[0], maxFrame, now, rest) && frames == now + later
    ensures if Oversized(rest, maxFrame) then later == [] && threw
            else Delivers(rest, chunks[1..], maxFrame, later, threw)
  {
    now, rest, later :| IsCut(pending + chunks[0], maxFrame, now, rest) && frames == now + later
      && (if Oversized(rest, maxFrame) then later == [] && threw
          else Delivers(rest, chunks[1..], maxFrame, later, threw));
  }

  lemma OversizedStays(s: Bytes, more: Bytes, maxFrame: nat, f: seq<Bytes>, r: Bytes)
    requires Oversized(s, maxFrame) && IsCut(s + more, maxFrame, f, r)
    ensures f == [] && Oversized(r, maxFrame)
  {
    assert Word(s + more, 0) == Word(s, 0);
    assert Wire([]) + (s + more) == s + more;
    CutUnique(s + more, maxFrame, f, r, [], s + more);
  }

  lemma {:induction false} CutExists(s: Bytes, maxFrame: nat) returns (frames: seq<Bytes>, rest: Bytes)
    ensures IsCut(s, maxFrame, frames, rest)
    decreases |s|
  {
    if Stuck(s, maxFrame) {
      frames, rest := [], s;
      assert s == Wire([]) + s;
    } else {
      var n := Word(s, 0);
      var p, more := s[2..2 + n], s[2 + n..];
      assert s == Encode(p) + more;
      frames, rest := CutExists(more, maxFrame);
      assert ([p] + frames)[1..] == frames;
      frames := [p] + frames;
      assert s == Encode(p) + (Wire(frames[1..]) + rest);
    }
  }

  /** Any split of the concatenated encodings delivers exactly the payloads. */
  lemma ReassemblyExact(payloads: seq<Bytes>, chunks: seq<Bytes>, maxFrame: nat, frames: seq<Bytes>, threw: bool)
    requires Fits(payloads, maxFrame) && Flatten(chunks) == Wire(payloads)
    requires Delivers([], chunks, maxFrame, frames, threw)
    ensures frames == payloads && !threw
  {
    assert [] + Flatten(chunks) == Wire(payloads) + [];
    ChunkingIrrelevant([], chunks, maxFrame, frames, threw, payloads, []);
  }

  /** A run of pushes on one reader, given up at the first throw. What it hands over is a
      function of the bytes alone; in particular a fresh reader turns any split of the
      encodings back into the payloads. */
  method PushAll(reader: FrameReader, chunks: seq<Bytes>) returns (frames: seq<Bytes>, threw: bool)
    requires reader.Valid() && Stuck(reader.Pending(), reader.maxFrame) && !Oversized(reader.Pending(), reader.maxFrame)
    modifies reader
    ensures Delivers(old(reader.Pending()), chunks, reader.maxFrame, frames, threw)
    ensures !threw ==> reader.Valid()
    ensures forall all, rest | IsCut(old(reader.Pending()) + Flatten(chunks), reader.maxFrame, all, rest) ::
              frames == all && threw == Oversized(rest, reader.maxFrame)
    ensures old(reader.Pending()) == [] ==>
              forall payloads | Fits(payloads, reader.maxFrame) && Flatten(chunks) == Wire(payloads) ::
                frames == payloads && !threw
    decreases |chunks|
  {
    ghost var pending := reader.Pending();
    if chunks == [] {
      frames, threw := [], false;
    } else {
      var now;
      now, threw := reader.Push(chunks[0]);
      if threw {
        DeliversFirst(pending, chunks, reader.maxFrame, now, reader.buf, [], threw);
        frames := now;
      } else {
        ghost var rest := reader.Pending();
        var later;
        later, threw := PushAll(reader, chunks[1..]);
        DeliversFirst(pending, chunks, reader.maxFrame, now, rest, later, threw);
        frames := now + later;
      }
    }
    forall all, rest | IsCut(pending + Flatten(chunks), reader.maxFrame, all, rest)
      ensures frames == all && threw == Oversized(rest, reader.maxFrame)
    {
      ChunkingIrrelevant(pending, chunks, reader.maxFrame, frames, threw, all, rest);
    }
    if pending == [] {
      forall payloads | Fits(payloads, reader.maxFrame) && Flatten(chunks) == Wire(payloads)
        ensures frames == payloads && !threw
      {
        ReassemblyExact(payloads, chunks, reader.maxFrame, frames, threw);
      }
    }
  }

  lemma DeliversFirst(
    pending: Bytes, chunks: seq<Bytes>, maxFrame: nat, now: seq<Bytes>, rest: Bytes, later: seq<Bytes>, threw: bool)
    requires chunks != [] && IsCut(pending + chunks[0], maxFrame, now, rest)
    requires if Oversized(rest, maxFrame) then later == [] && threw
             else Delivers(rest, chunks[1..], maxFrame, later, threw)
    ensures Delivers(pending, chunks, maxFrame, now + later, threw)
  {}
}
