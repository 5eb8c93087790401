/**
Docker's multiplexed log stream (Docker Engine API, ContainerAttach, "Stream format"):
each frame is a header of eight bytes, the last four giving the payload size, and the payload.
*/
module DockerStream {

  type Byte = x: int | 0 <= x < 256

  type Bytes = seq<Byte>

  // ---------- The encoding ----------

  datatype Frame = Frame(kind: Byte, payload: Bytes)

  predicate Sized(f: Frame) {
    |f.payload| < 0x1_0000_0000
  }

  function Header(f: Frame): (h: Bytes)
    requires Sized(f)
    ensures |h| == 8
  {
    var n := |f.payload|;
    [f.kind, 0, 0, 0, n / 0x100_0000, n / 0x1_0000 % 0x100, n / 0x100 % 0x100, n % 0x100]
  }

  /** The fields of a header: the stream it belongs to, three zeros, and the size with the highest byte first. */
  lemma HeaderFields(f: Frame)
    requires Sized(f)
    ensures
      var h := Header(f);
      var a: int, b: int, c: int, d: int := h[4], h[5], h[6], h[7];
      h[0] == f.kind && h[1] == h[2] == h[3] == 0 && a * 0x100_0000 + b * 0x1_0000 + c * 0x100 + d == |f.payload|
  {
    var n := |f.payload|;
    assert n == n / 0x100 * 0x100 + n % 0x100;
    assert n / 0x100 == n / 0x1_0000 * 0x100 + n / 0x100 % 0x100;
    assert n / 0x1_0000 == n / 0x100_0000 * 0x100 + n / 0x1_0000 % 0x100;
  }

  function Encode(frames: seq<Frame>): Bytes
    requires forall f :: f in frames ==> Sized(f)
  {
    if frames == [] then [] else Header(frames[0]) + frames[0].payload + Encode(frames[1..])
  }

  function Payloads(frames: seq<Frame>): Bytes {
    if frames == [] then [] else frames[0].payload + Payloads(frames[1..])
  }

  // ---------- The demultiplexer ----------

  /** The size field of a header, as the shifts and ors of the code read it into a 64-bit int. */
  function Size(header: Bytes): nat
    requires |header| >= 8
  {
    var a: int, b: int, c: int, d: int := header[4], header[5], header[6], header[7];
    a * 0x100_0000 + b * 0x1_0000 + c * 0x100 + d
  }

  function Min(a: nat, b: nat): nat {
    if a <= b then a else b
  }

  /** The payload bytes that the loop collects, and what is left when fewer than eight bytes remain. */
  function Collect(data: Bytes): (Bytes, Bytes)
  {
    if |data| < 8 then ([], data)
    else
      var size := Min(Size(data), |data| - 8);
      var (clean, left) := Collect(data[8 + size..]);
      (data[8..8 + size] + clean, left)
  }

  function Strip(data: Bytes): Bytes {
    var (clean, left) := Collect(data);
    if clean == [] then left else clean
  }

  /** One round of the loop takes one frame off. */
  lemma OneFrame(data: Bytes, clean: Bytes)
    requires |data| >= 8
    ensures
      var body, size := data[8..], Min(Size(data), |data| - 8);
      Collect(data).1 == Collect(body[size..]).1 &&
      clean + Collect(data).0 == clean + body[..size] + Collect(body[size..]).0
  {
    var body, size := data[8..], Min(Size(data), |data| - 8);
    FrameParts(data, size);
    CollectFrame(data);
    AppendIsAssociative(clean, body[..size], Collect(body[size..]).0);
  }

  lemma FrameParts(data: Bytes, size: nat)
    requires 8 + size <= |data|
    ensures data[8..8 + size] == data[8..][..size] && data[8 + size..] == data[8..][size..]
  {
  }

  lemma CollectFrame(data: Bytes)
    requires |data| >= 8
    ensures
      var size := Min(Size(data), |data| - 8);
      Collect(data) == (data[8..8 + size] + Collect(data[8 + size..]).0, Collect(data[8 + size..]).1)
  {
  }

  lemma AppendIsAssociative(x: Bytes, y: Bytes, z: Bytes)
    ensures x + (y + z) == x + y + z
  {
  }

  /** stripDockerHeaders. */
  method StripDockerHeaders(input: Bytes) returns (r: Bytes)
    ensures r == Strip(input)
  {
    var data, clean: Bytes := input, [];
    while |data| >= 8
      invariant clean + Collect(data).0 == Collect(input).0
      invariant Collect(data).1 == Collect(input).1
      decreases |data|
    {
      OneFrame(data, clean);
      var size := Size(data);
      data := data[8..];
      if size > |data| {
        size := |data|;
      }
      clean := clean + data[..size];
      data := data[size..];
    }
    r := if clean == [] then data else clean;
  }

  // ---------- Demultiplexing undoes the encoding ----------

  lemma SizeOfHeader(f: Frame)
    requires Sized(f)
    ensures Size(Header(f)) == |f.payload|
  {
    var n := |f.payload|;
    assert n / 0x1_0000 == n / 0x100_0000 * 0x100 + n / 0x1_0000 % 0x100;
    assert n / 0x100 == n / 0x1_0000 * 0x100 + n / 0x100 % 0x100;
  }

  /** The payload bytes among the first `n` bytes of the stream. */
  function Arrived(frames: seq<Frame>, n: nat): Bytes {
    if frames == [] || n < 8 then []
    else
      var p := frames[0].payload;
      if n - 8 < |p| then p[..n - 8] else p + Arrived(frames[1..], n - 8 - |p|)
  }

  /** The bytes of a last header that is cut short. */
  function PartialHeader(frames: seq<Frame>, n: nat): nat {
    if frames == [] then 0
    else if n < 8 then n
    else
      var p := frames[0].payload;
      if n - 8 < |p| then 0 else PartialHeader(frames[1..], n - 8 - |p|)
  }

  lemma FrameCutShort(f: Frame, rest: Bytes, n: nat)
    requires Sized(f) && 8 <= n < 8 + |f.payload|
    ensures Collect((Header(f) + f.payload + rest)[..n]) == (f.payload[..n - 8], [])
  {
    var data := (Header(f) + f.payload + rest)[..n];
    SizeOfHeader(f);
    assert Size(data) == Size(Header(f));
    assert data[8..n] + [] == f.payload[..n - 8];
    assert Collect(data[n..]) == ([], []);
  }

  lemma FrameComplete(f: Frame, rest: Bytes, n: nat)
    requires Sized(f) && 8 + |f.payload| <= n <= 8 + |f.payload| + |rest|
    ensures var (clean, left) := Collect(rest[..n - 8 - |f.payload|]);
      Collect((Header(f) + f.payload + rest)[..n]) == (f.payload + clean, left)
  {
    var data, m := (Header(f) + f.payload + rest)[..n], 8 + |f.payload|;
    SizeOfHeader(f);
    assert Size(data) == Size(Header(f));
    assert data[8..m] == f.payload;
    assert data[m..] == rest[..n - m];
  }

  lemma {:induction false} CollectTruncated(frames: seq<Frame>, n: nat)
    requires forall f :: f in frames ==> Sized(f)
    requires n <= |Encode(frames)|
    ensures var (clean, left) := Collect(Encode(frames)[..n]);
      clean == Arrived(frames, n) && |left| == PartialHeader(frames, n)
    decreases |frames|
  {
    if frames != [] && n >= 8 {
      var p, rest := frames[0].payload, Encode(frames[1..]);
      if n - 8 < |p| {
        FrameCutShort(frames[0], rest, n);
      } else {
        FrameComplete(frames[0], rest, n);
        CollectTruncated(frames[1..], n - 8 - |p|);
      }
    }
  }

  lemma {:induction false} EverythingArrived(frames: seq<Frame>)
    requires forall f :: f in frames ==> Sized(f)
    ensures Arrived(frames, |Encode(frames)|) == Payloads(frames)
    ensures PartialHeader(frames, |Encode(frames)|) == 0
  {
    if frames != [] {
      EverythingArrived(frames[1..]);
    }
  }

  /** A complete stream gives back the concatenated payloads, empty or not. */
  lemma StripUndoesEncode(frames: seq<Frame>)
    requires forall f :: f in frames ==> Sized(f)
    ensures Strip(Encode(frames)) == Payloads(frames)
  {
    var n := |Encode(frames)|;
    assert Encode(frames)[..n] == Encode(frames);
    CollectTruncated(frames, n);
    EverythingArrived(frames);
  }

  /**
  A stream cut anywhere gives the payload bytes that arrived, except when none arrived and it
  was cut inside a header: then those header bytes are taken for unframed text.
  */
  lemma StripTruncated(frames: seq<Frame>, n: nat)
    requires forall f :: f in frames ==> Sized(f)
    requires n <= |Encode(frames)|
    ensures Strip(Encode(frames)[..n]) == Arrived(frames, n) <==>
      Arrived(frames, n) != [] || PartialHeader(frames, n) == 0
  {
    CollectTruncated(frames, n);
  }
}
