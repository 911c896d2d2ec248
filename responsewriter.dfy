/** pkg/responsewriter: a response writer that keeps a copy of everything
    written through it and the last status set. */
module Recorder {
  import opened Http

  class ResponseRecorder {
    const writer: Writer
    var body: seq<byte>
    var statusCode: int

    /** NewResponseRecorder: an empty buffer and status 200. */
    constructor (w: Writer)
      ensures writer == w && body == [] && statusCode == 200
    {
      writer := w;
      body := [];
      statusCode := 200;
    }

    /** Appends b to the buffer and forwards exactly b to the wrapped writer,
        returning what the wrapped writer returns. */
    method Write(b: seq<byte>) returns (n: nat)
      modifies this, writer
      ensures body == old(body) + b
      ensures statusCode == old(statusCode)
      ensures writer.body == old(writer.body) + b && n == |b|
      ensures writer.header == old(writer.header) && writer.statuses == old(writer.statuses)
    {
      body := body + b;
      n := writer.Write(b);
    }

    /** Records the status (the last call wins) and forwards it. */
    method WriteHeader(statusCode: int)
      modifies this, writer
      ensures this.statusCode == statusCode
      ensures body == old(body)
      ensures writer.statuses == old(writer.statuses) + [statusCode]
      ensures writer.header == old(writer.header) && writer.body == old(writer.body)
    {
      this.statusCode := statusCode;
      writer.WriteHeader(statusCode);
    }
  }
}
