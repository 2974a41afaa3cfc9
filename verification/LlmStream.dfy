/** The streaming call: a dropped connection is tried again, but only while nothing has
    been handed to the reader. */
module LlmStream {

  /** How an attempt's stream ends: closed by the server, dropped by the transport, or
      broken by a bad status, an error chunk or malformed data. */
  datatype End = Closed | Dropped | Broken

  /** What an attempt would meet: the content of its chunks, then its end. */
  datatype Try = Try(chunks: seq<string>, end: End)

  /** Chunks without content are not handed on. */
  function Spoken(chunks: seq<string>): seq<string> {
    if chunks == [] then []
    else
      var n := |chunks| - 1;
      Spoken(chunks[..n]) + if chunks[n] == "" then [] else [chunks[n]]
  }

  function Attempts(configured: int): nat {
    if configured < 1 then 1 else configured
  }

  /** An attempt that is safe to repeat. */
  predicate Silent(t: Try) {
    t.end.Dropped? && Spoken(t.chunks) == []
  }

  /** The reader is handed the chunks of one attempt and of no other: every earlier one
      was dropped before it said anything. The call fails exactly when that attempt did
      not close, and a dropped attempt is the last only if it had spoken or was the last
      one allowed. */
  method Stream(tries: seq<Try>, configured: int) returns (heard: seq<string>, ok: bool, used: nat)
    requires |tries| >= Attempts(configured)
    ensures 1 <= used <= Attempts(configured)
    ensures forall i :: 0 <= i < used - 1 ==> Silent(tries[i])
    ensures heard == Spoken(tries[used - 1].chunks) && (ok <==> tries[used - 1].end.Closed?)
    ensures Silent(tries[used - 1]) ==> used == Attempts(configured)
  {
    heard, used := [], 0;
    var attempts := Attempts(configured);
    while true
      invariant heard == [] && used < attempts
      invariant forall i :: 0 <= i < used ==> Silent(tries[i])
      decreases attempts - used
    {
      var t := tries[used];
      used := used + 1;
      var emitted := false;
      for k := 0 to |t.chunks|
        invariant heard == Spoken(t.chunks[..k]) && (emitted <==> heard != [])
      {
        assert t.chunks[..k + 1][..k] == t.chunks[..k];
        if t.chunks[k] != "" {
          emitted := true;
          heard := heard + [t.chunks[k]];
        }
      }
      assert t.chunks[..|t.chunks|] == t.chunks;
      if t.end.Closed? {
        return heard, true, used;
      }
      if t.end.Broken? || emitted || used >= attempts {
        return heard, false, used;
      }
    }
  }
}
