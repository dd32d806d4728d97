/** speedtest.go, the binary frames: one byte with the length of the request
    id, the id, and the payload. An empty payload ends an upload. */
module Frames {
  import opened Options

  newtype byte = x: int | 0 <= x < 256

  type Bytes = seq<byte>

  datatype Frame = Frame(id: Bytes, payload: Bytes)

  /** sendFrame; the conversion to a byte keeps the low eight bits. */
  function Build(id: Bytes, payload: Bytes): Bytes {
    [(|id| % 256) as byte] + id + payload
  }

  /** What speedtestOnFrame makes of a binary message. */
  function Parse(data: Bytes): Option<Frame> {
    if |data| < 2 then None
    else
      var n := data[0] as int;
      if n == 0 || |data| < 1 + n then None
      else Some(Frame(data[1..1 + n], data[1 + n..]))
  }

  /** The layout on the wire: length byte, id, payload. */
  lemma FrameLayout(id: Bytes, payload: Bytes)
    requires |id| <= 255
    ensures var data := Build(id, payload);
            && |data| == 1 + |id| + |payload| && data[0] as int == |id|
            && data[1..1 + |id|] == id && data[1 + |id|..] == payload
  {
  }

  /** A message is refused exactly if it has no payload part: too short for a
      length byte and something more, an empty id, or a cut one. */
  lemma RefusedIff(data: Bytes)
    ensures Parse(data).None? <==> |data| < 2 || data[0] == 0 || |data| < 1 + data[0] as int
  {
  }

  /** A frame is read back as it was sent exactly when its id has between 1
      and 255 bytes. */
  lemma FrameRoundTrip(id: Bytes, payload: Bytes)
    ensures Parse(Build(id, payload)) == Some(Frame(id, payload)) <==> 1 <= |id| <= 255
  {
    var data := Build(id, payload);
    if 1 <= |id| <= 255 {
      assert data[1..1 + |id|] == id && data[1 + |id|..] == payload;
    }
  }

  /** Reading loses nothing: an accepted message is the frame of its parts. */
  lemma ParseRoundTrip(data: Bytes)
    ensures var f := Parse(data); f.Some? ==> Build(f.value.id, f.value.payload) == data
  {
  }

  // ---------- uploads ----------

  function Flatten(chunks: seq<Bytes>): Bytes {
    if chunks == [] then [] else Flatten(chunks[..|chunks| - 1]) + chunks[|chunks| - 1]
  }

  datatype Received = Open(body: Bytes) | Ended(body: Bytes)

  /** The receiving side: payloads under the id are collected until an empty one. */
  function Receive(id: Bytes, messages: seq<Bytes>): Received {
    if messages == [] then Open([])
    else
      var before := Receive(id, messages[..|messages| - 1]);
      var f := Parse(messages[|messages| - 1]);
      if before.Ended? || f.None? || f.value.id != id then before
      else if f.value.payload == [] then Ended(before.body)
      else Open(before.body + f.value.payload)
  }

  /** The upload loop of speedtestUpload. parts are the successive results of
      body.Read before the end of the body; a read may return no bytes. The
      receiver gets exactly the body, and is told once that it has ended. */
  method UploadFrames(id: Bytes, parts: seq<Bytes>) returns (sent: seq<Bytes>)
    requires 1 <= |id| <= 255
    ensures Receive(id, sent) == Ended(Flatten(parts))
    ensures sent != [] && Receive(id, sent[..|sent| - 1]) == Open(Flatten(parts))
  {
    hide Build, Parse;
    sent := [];
    for i := 0 to |parts|
      invariant Receive(id, sent) == Open(Flatten(parts[..i]))
    {
      assert parts[..i + 1][..i] == parts[..i];
      if |parts[i]| > 0 {
        var frame := Build(id, parts[i]);
        FrameRoundTrip(id, parts[i]);
        assert (sent + [frame])[..|sent|] == sent;
        sent := sent + [frame];
      }
    }
    assert parts[..|parts|] == parts;
    var last := Build(id, []);
    FrameRoundTrip(id, []);
    assert (sent + [last])[..|sent|] == sent;
    sent := sent + [last];
  }
}
