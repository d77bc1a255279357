/** The throughput download: reading the body piece by piece, and judging it. */
module Download {
  import opened Prelude

  const PAYLOAD: nat := 0x10_0000
  const HEAD: nat := 0x1_0000
  const BUFFER: nat := 0x8000
  const OK_STATUS: nat := 200

  datatype End = EOF | Broken(error: string)

  /** What the server sends: pieces as they arrive, and an end that may come with the last of them. */
  datatype Body = Body(pieces: seq<seq<Byte>>, end: End, together: bool)

  function Flatten(pieces: seq<seq<Byte>>): seq<Byte> {
    if pieces == [] then [] else pieces[0] + Flatten(pieces[1..])
  }

  function Work(pieces: seq<seq<Byte>>): nat {
    if pieces == [] then 0 else 1 + |pieces[0]| + Work(pieces[1..])
  }

  /** One read into a buffer of the given room: what arrived, the end if it came, and what is left. */
  function Read(body: Body, room: nat): (seq<Byte>, Option<End>, Body) {
    if body.pieces == [] then ([], Some(body.end), body)
    else
      var first, rest := body.pieces[0], body.pieces[1..];
      if |first| <= room then
        (first, if rest == [] && body.together then Some(body.end) else None, body.(pieces := rest))
      else
        (first[..room], None, body.(pieces := [first[room..]] + rest))
  }

  lemma ReadTakesFromFront(body: Body, room: nat)
    ensures var (data, end, rest) := Read(body, room);
            && |data| <= room
            && data + Flatten(rest.pieces) == Flatten(body.pieces)
            && rest.end == body.end && rest.together == body.together
            && (end.Some? ==> end.value == body.end && rest.pieces == [])
            && (end.None? && 0 < room ==> Work(rest.pieces) < Work(body.pieces))
  {
    if body.pieces != [] && |body.pieces[0]| > room {
      var first, tail := body.pieces[0], body.pieces[1..];
      var left := [first[room..]] + tail;
      assert left[1..] == tail;
      assert first[..room] + (first[room..] + Flatten(tail)) == first + Flatten(tail);
    }
  }

  lemma HeadGrows(whole: seq<Byte>, bytes: nat, data: seq<Byte>, later: seq<Byte>)
    requires bytes <= |whole| && data + later == whole[bytes..]
    ensures bytes + |data| <= |whole| && later == whole[bytes + |data|..]
    ensures var room := HEAD - Min(bytes, HEAD);
            whole[..Min(bytes, HEAD)] + data[..Min(|data|, room)] == whole[..Min(bytes + |data|, HEAD)]
  {
    assert whole[bytes..][|data|..] == later;
    assert forall i :: 0 <= i < |data| ==> data[i] == whole[bytes..][i];
  }

  /** Reads up to one byte more than the payload and keeps the start of the body. */
  method ReadBody(body: Body) returns (bytes: nat, head: seq<Byte>, error: Option<string>)
    ensures var whole := Flatten(body.pieces);
            bytes == Min(|whole|, PAYLOAD + 1) && head == whole[..Min(bytes, HEAD)]
    ensures error.Some? ==> body.end == Broken(error.value)
    ensures |Flatten(body.pieces)| <= PAYLOAD ==> (error.Some? <==> body.end.Broken?)
    ensures |Flatten(body.pieces)| > PAYLOAD + 1 ==> error.None?
  {
    ghost var whole := Flatten(body.pieces);
    var rest: Body, limit: nat := body, PAYLOAD + 1;
    bytes, head, error := 0, [], None;
    while true
      invariant limit + bytes == PAYLOAD + 1 && bytes <= |whole|
      invariant Flatten(rest.pieces) == whole[bytes..]
      invariant head == whole[..Min(bytes, HEAD)]
      invariant error.None? && rest.end == body.end && rest.together == body.together
      decreases Work(rest.pieces)
    {
      if limit == 0 {
        return;
      }
      ReadTakesFromFront(rest, Min(BUFFER, limit));
      var (data, end, rest') := Read(rest, Min(BUFFER, limit));
      var n := |data|;
      HeadGrows(whole, bytes, data, Flatten(rest'.pieces));
      if n > 0 {
        if |head| < HEAD {
          head := head + data[..Min(n, HEAD - |head|)];
        }
      }
      bytes, limit, rest := bytes + n, limit - n, rest';
      if end == Some(EOF) {
        return;
      }
      if end.Some? {
        error := Some(end.value.error);
        return;
      }
    }
  }

  // ----- the verdict

  /** Why a download failed. */
  datatype Fault = Failed(error: string) | Intercepted | WrongStatus(status: nat) | WrongSize(bytes: nat)

  function FaultOf(error: Option<string>, badCert: bool, status: nat, bytes: nat): Option<Fault> {
    if error.Some? then Some(Failed(error.value))
    else if badCert then Some(Intercepted)
    else if status != OK_STATUS then Some(WrongStatus(status))
    else if bytes != PAYLOAD then Some(WrongSize(bytes))
    else None
  }

  method Judge(body: Body, badCert: bool, status: nat) returns (fault: Option<Fault>)
    ensures fault.None? <==> body.end == EOF && !badCert && status == OK_STATUS && |Flatten(body.pieces)| == PAYLOAD
    ensures var size := |Flatten(body.pieces)|;
            // An error of the read comes first, then the certificate, the status and the size.
            && (body.end.Broken? && size <= PAYLOAD ==> fault == Some(Failed(body.end.error)))
            && (body.end.EOF? || size > PAYLOAD + 1 ==>
                  fault == if badCert then Some(Intercepted)
                           else if status != 200 then Some(WrongStatus(status))
                           else if size != 0x10_0000 then Some(WrongSize(Min(size, 0x10_0001)))
                           else None)
            && (fault.Some? && fault.value.Failed? ==> body.end == Broken(fault.value.error))
  {
    var bytes, head, error := ReadBody(body);
    fault := FaultOf(error, badCert, status, bytes);
  }
}
