/**
 The clamd INSTREAM stream: length-prefixed chunks closed by a zero length.
 */
module Instream {
  import opened Wrappers
  import opened UploadGate

  const CHUNK: nat := 4096

  /** struct.pack(">I", n). */
  function Pack(n: nat): Bytes
    requires n < 0x1_0000_0000
  {
    [n / 0x100_0000, n / 0x1_0000 % 0x100, n / 0x100 % 0x100, n % 0x100]
  }

  function Unpack(b: Bytes): nat
    requires |b| == 4
  {
    b[0] as int * 0x100_0000 + b[1] as int * 0x1_0000 + b[2] as int * 0x100 + b[3] as int
  }

  lemma UnpackPack(n: nat)
    requires n < 0x1_0000_0000
    ensures Unpack(Pack(n)) == n
    ensures var b := Pack(n);
      b[0] as int * 256 * 256 * 256 + b[1] as int * 256 * 256 + b[2] as int * 256 + b[3] as int == n
  {
    assert n == n / 0x100 * 0x100 + n % 0x100;
    var m := n / 0x100;
    assert m == m / 0x100 * 0x100 + m % 0x100;
    var l := m / 0x100;
    assert l == n / 0x1_0000 && l / 0x100 == n / 0x100_0000;
  }

  /** The chunks of a file, then the terminator. */
  function Stream(file: Bytes): Bytes
    decreases |file|
  {
    if file == [] then Pack(0)
    else
      var n := if |file| < CHUNK then |file| else CHUNK;
      Pack(n) + file[..n] + Stream(file[n..])
  }

  lemma StreamStep(file: Bytes, i: nat, end: nat)
    requires i < |file| && end == (if i + CHUNK < |file| then i + CHUNK else |file|)
    ensures Stream(file[i..]) == Pack(end - i) + file[i..end] + Stream(file[end..])
  {
    assert file[i..][..end - i] == file[i..end] && file[i..][end - i..] == file[end..];
  }

  /** Sending one more chunk leaves that much less to send. */
  lemma NextChunk(file: Bytes, i: nat, end: nat, wire: Bytes)
    requires i < |file| && end == (if i + CHUNK < |file| then i + CHUNK else |file|)
    ensures wire + Stream(file[i..]) == wire + (Pack(end - i) + file[i..end]) + Stream(file[end..])
  {
    StreamStep(file, i, end);
    assert wire + (Pack(end - i) + file[i..end] + Stream(file[end..]))
      == wire + (Pack(end - i) + file[i..end]) + Stream(file[end..]);
  }

  /** The sending loop of scan_with_clamav, after the command. */
  method Send(file: Bytes) returns (wire: Bytes)
    ensures wire == Stream(file)
  {
    wire := [];
    var i := 0;
    while i < |file|
      invariant 0 <= i <= |file|
      invariant wire + Stream(file[i..]) == Stream(file)
      decreases |file| - i
    {
      var end := if i + CHUNK < |file| then i + CHUNK else |file|;
      var chunk := file[i..end];
      NextChunk(file, i, end, wire);
      wire := wire + (Pack(|chunk|) + chunk);
      i := end;
    }
    wire := wire + Pack(0);
  }

  /** The wire carries the file, four bytes of length for each started block of 4096, and four at the end. */
  lemma {:induction false} StreamLength(file: Bytes)
    ensures |Stream(file)| == |file| + 4 * ((|file| + 4095) / 4096) + 4
    decreases |file|
  {
    if file != [] {
      var n := if |file| < CHUNK then |file| else CHUNK;
      StreamLength(file[n..]);
    }
  }

  /** What a reader makes of a stream: the payload up to the zero length, and what follows it. Lengths
      over 4096 and truncated streams are refused. */
  function Receive(wire: Bytes): Option<(Bytes, Bytes)>
    decreases |wire|
  {
    if |wire| < 4 then None
    else
      var n := Unpack(wire[..4]);
      if n == 0 then Some(([], wire[4..]))
      else if n > CHUNK || |wire| < 4 + n then None
      else
        var rest := Receive(wire[4 + n..]);
        if rest.None? then None else Some((wire[4..4 + n] + rest.value.0, rest.value.1))
  }

  lemma Framing(head: Bytes, payload: Bytes, rest: Bytes)
    ensures var wire, n := head + payload + rest, |head|;
      wire[..n] == head && wire[n..n + |payload|] == payload && wire[n + |payload|..] == rest
  {
  }

  /** The reader recovers exactly the file and stops exactly at the terminator, whatever follows. */
  lemma {:induction false} StreamRoundTrips(file: Bytes, after: Bytes)
    ensures Receive(Stream(file) + after) == Some((file, after))
    decreases |file|
  {
    var wire := Stream(file) + after;
    if file == [] {
      UnpackPack(0);
      assert wire[..4] == Pack(0) && wire[4..] == after;
    } else {
      var n := if |file| < CHUNK then |file| else CHUNK;
      UnpackPack(n);
      StreamRoundTrips(file[n..], after);
      assert wire == Pack(n) + file[..n] + (Stream(file[n..]) + after);
      Framing(Pack(n), file[..n], Stream(file[n..]) + after);
      assert file[..n] + file[n..] == file;
    }
  }
}
