/**
 * The status-recording response writer of the logging middleware: a latch
 * that keeps the first status code written and forwards only that one to
 * the wrapped writer.
 */
module Middleware {

  /** The wrapped `http.ResponseWriter`, reduced to the status codes it has received. */
  class HeaderSink {
    var written: seq<int>

    constructor()
      ensures written == []
    {
      written := [];
    }

    /** Receives one status code. */
    method WriteHeader(code: int)
      modifies this
      ensures written == old(written) + [code]
    {
      written := written + [code];
    }
  }

  /** The two fields of the latch. */
  datatype Latch = Latch(status: int, wroteHeader: bool)

  /** The state of a freshly wrapped writer. */
  const Fresh := Latch(0, false)

  /** One `WriteHeader(code)`: the first call records the code, later calls change nothing. */
  function Step(l: Latch, code: int): Latch {
    if l.wroteHeader then l else Latch(code, true)
  }

  /** The codes one `WriteHeader(code)` passes on to the wrapped writer. */
  function Forward(l: Latch, code: int): seq<int> {
    if l.wroteHeader then [] else [code]
  }

  /** The state after a sequence of `WriteHeader` calls. */
  function Run(l: Latch, codes: seq<int>): Latch
    decreases |codes|
  {
    if |codes| == 0 then l else Run(Step(l, codes[0]), codes[1..])
  }

  /** Everything a sequence of `WriteHeader` calls passes on to the wrapped writer. */
  function Forwarded(l: Latch, codes: seq<int>): seq<int>
    decreases |codes|
  {
    if |codes| == 0 then [] else Forward(l, codes[0]) + Forwarded(Step(l, codes[0]), codes[1..])
  }

  /** Once a header is written, further calls neither change the latch nor forward anything. */
  lemma {:induction false} LatchedStays(l: Latch, codes: seq<int>)
    requires l.wroteHeader
    ensures Run(l, codes) == l && Forwarded(l, codes) == []
    decreases |codes|
  {
    if |codes| > 0 {
      LatchedStays(l, codes[1..]);
    }
  }

  /**
   * First write wins: after any non-empty sequence of calls on a fresh
   * writer the status is the first code, and the wrapped writer has received
   * exactly that code, once.
   */
  lemma FirstWriteWins(codes: seq<int>)
    requires |codes| > 0
    ensures Run(Fresh, codes) == Latch(codes[0], true)
    ensures Forwarded(Fresh, codes) == [codes[0]]
  {
    LatchedStays(Latch(codes[0], true), codes[1..]);
  }

  /** `responseWriter`: the wrapped writer plus the latch fields. */
  class ResponseWriter {
    const inner: HeaderSink
    var status: int
    var wroteHeader: bool
    /** The codes this wrapper has passed on to `inner`. */
    ghost var forwarded: seq<int>

    /** At most one code has gone through, and it is the recorded status. */
    ghost predicate Valid()
      reads this
    {
      && (!wroteHeader ==> forwarded == [] && status == 0)
      && (wroteHeader ==> forwarded == [status])
    }

    /** `wrapResponseWriter`: status 0, no header written yet. */
    constructor Wrap(w: HeaderSink)
      ensures inner == w && Latch(status, wroteHeader) == Fresh && forwarded == []
      ensures Valid()
    {
      inner := w;
      status := 0;
      wroteHeader := false;
      forwarded := [];
    }

    /** The recorded status: 0 before any header, afterwards the one code forwarded. */
    function Status(): (s: int)
      reads this
      ensures Valid() && wroteHeader ==> [s] == forwarded
      ensures Valid() && !wroteHeader ==> s == 0
    {
      status
    }

    /** Records and forwards `code` if no header was written yet, and does nothing otherwise. */
    method WriteHeader(code: int)
      requires Valid()
      modifies this, inner
      ensures Valid()
      ensures Latch(status, wroteHeader) == Step(old(Latch(status, wroteHeader)), code)
      ensures inner.written == old(inner.written) + Forward(old(Latch(status, wroteHeader)), code)
      ensures forwarded == old(forwarded) + Forward(old(Latch(status, wroteHeader)), code)
    {
      if wroteHeader {
        return;
      }
      status := code;
      inner.WriteHeader(code);
      forwarded := forwarded + [code];
      wroteHeader := true;
    }
  }
}
