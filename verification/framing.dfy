/**
 * One part of the `multipart/x-mixed-replace; boundary=frame` response body
 * every feed yields per frame: boundary line, content-type header, blank
 * line, JPEG bytes, line break.
 */
module Framing {
  import opened Common

  /** `b'--frame\r\n' b'Content-Type: image/jpeg\r\n\r\n'`. */
  const Prefix: seq<byte> := Ascii("--frame\r\nContent-Type: image/jpeg\r\n\r\n")

  /** `b'\r\n'`. */
  const Suffix: seq<byte> := Ascii("\r\n")

  /** The chunk yielded for one encoded image. */
  function Chunk(payload: seq<byte>): (c: seq<byte>)
    ensures |c| == |Prefix| + |payload| + |Suffix|
  {
    Prefix + payload + Suffix
  }

  /** The payload of a chunk, or `None` if `c` lacks the fixed prefix or suffix. */
  function Unframe(c: seq<byte>): Option<seq<byte>> {
    if |c| >= |Prefix| + |Suffix| && c[..|Prefix|] == Prefix && c[|c| - |Suffix|..] == Suffix
    then Some(c[|Prefix|..|c| - |Suffix|])
    else None
  }

  /** Stripping the fixed prefix and suffix recovers the payload. */
  lemma UnframeChunk(payload: seq<byte>)
    ensures Unframe(Chunk(payload)) == Some(payload)
  {
  }

  /** Every byte string that unframes is the chunk of its payload. */
  lemma ChunkOfUnframe(c: seq<byte>)
    ensures Unframe(c).Some? ==> Chunk(Unframe(c).value) == c
  {
  }

  /** Distinct payloads give distinct chunks. */
  lemma ChunkInjective(p: seq<byte>, q: seq<byte>)
    ensures Chunk(p) == Chunk(q) ==> p == q
  {
    UnframeChunk(p);
    UnframeChunk(q);
  }

  /** The two adjacent literals of the header join into the one the prefix is built from. */
  lemma HeaderLiteralsJoin()
    ensures "--frame\r\n" + "Content-Type: image/jpeg\r\n\r\n" == "--frame\r\nContent-Type: image/jpeg\r\n\r\n"
  {
  }

  /**
   * The prefix is the boundary line followed by the content-type header and
   * the blank line, as the two adjacent byte literals spell them; the suffix
   * is CR LF.
   */
  lemma FramingBytes()
    ensures Prefix == Ascii("--frame\r\n") + Ascii("Content-Type: image/jpeg\r\n\r\n")
    ensures Suffix == [13, 10]
  {
    HeaderLiteralsJoin();
    AsciiConcat("--frame\r\n", "Content-Type: image/jpeg\r\n\r\n");
  }
}
