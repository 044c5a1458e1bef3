/**
 * The part of Go's `http.ResponseWriter` the server uses: a header map, a status
 * line sent once, a body written in pieces, and `http.Error`. A writer whose
 * connection has failed returns the same error from every `Write`.
 */
module Http {
  import opened Wrappers

  const StatusOK: nat := 200
  const StatusInternalServerError: nat := 500
  const MethodHead: string := "HEAD"

  /** A request handed to the standard library's file serving, which this model
      does not look into. */
  datatype Handoff =
    | ServeFile(path: string)       // http.ServeFile(w, r, path)
    | FileServer(urlPath: string)   // fileServer.ServeHTTP(w, r)

  /** The headers `http.Error` leaves: no length, and a plain-text type that
      browsers are told not to second-guess. */
  function ErrorHeaders(header: map<string, string>): map<string, string> {
    (header - {"Content-Length"})["Content-Type" := "text/plain; charset=utf-8"]["X-Content-Type-Options" := "nosniff"]
  }

  class ResponseWriter {
    /** The header map `w.Header()` returns. */
    var header: map<string, string>
    /** The status sent, 0 while none has been. */
    var status: nat
    /** The bytes written to the body so far. */
    var body: string
    /** The error every write returns once the connection has failed. */
    var failure: Option<string>
    /** Where the response was handed to the standard library's file serving. */
    var handoff: Option<Handoff>

    constructor (failure: Option<string>)
      ensures header == map[] && status == 0 && body == "" && handoff == None
      ensures this.failure == failure
    {
      header := map[];
      status := 0;
      body := "";
      this.failure := failure;
      handoff := None;
    }

    /** `w.Header().Set(key, value)`. */
    method SetHeader(key: string, value: string)
      modifies this
      ensures header == old(header)[key := value]
      ensures status == old(status) && body == old(body)
      ensures failure == old(failure) && handoff == old(handoff)
    {
      header := header[key := value];
    }

    /** `w.Header().Del(key)`. */
    method DelHeader(key: string)
      modifies this
      ensures header == old(header) - {key}
      ensures status == old(status) && body == old(body)
      ensures failure == old(failure) && handoff == old(handoff)
    {
      header := header - {key};
    }

    /** `w.WriteHeader(code)`: only the first status sent counts. */
    method WriteHeader(code: nat)
      modifies this
      ensures status == if old(status) == 0 then code else old(status)
      ensures header == old(header) && body == old(body)
      ensures failure == old(failure) && handoff == old(handoff)
    {
      if status == 0 {
        status := code;
      }
    }

    /** `w.Write(data)`: sends 200 first if no status was sent; fails without
        writing once the connection has failed. */
    method Write(data: string) returns (err: Option<string>)
      modifies this
      ensures status == if old(status) == 0 then StatusOK else old(status)
      ensures err == old(failure)
      ensures body == if err.None? then old(body) + data else old(body)
      ensures header == old(header) && failure == old(failure) && handoff == old(handoff)
    {
      if status == 0 {
        status := StatusOK;
      }
      err := failure;
      if err.None? {
        body := body + data;
      }
    }

    /** `http.Error(w, msg, 500)`: a plain-text body of the message and a line break. */
    method Error(msg: string)
      modifies this
      ensures header == ErrorHeaders(old(header))
      ensures status == if old(status) == 0 then StatusInternalServerError else old(status)
      ensures body == if failure.None? then old(body) + msg + "\n" else old(body)
      ensures failure == old(failure) && handoff == old(handoff)
    {
      DelHeader("Content-Length");
      SetHeader("Content-Type", "text/plain; charset=utf-8");
      SetHeader("X-Content-Type-Options", "nosniff");
      WriteHeader(StatusInternalServerError);
      var _ := Write(msg + "\n");
    }

    /** Hands the response over to the standard library's file serving. */
    method HandOff(to: Handoff)
      modifies this
      ensures handoff == Some(to)
      ensures header == old(header) && status == old(status) && body == old(body)
      ensures failure == old(failure)
    {
      handoff := Some(to);
    }
  }
}
