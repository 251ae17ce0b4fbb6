/**
 The response writers as the objects they are. Every object holds the next one
 outwards in `rw`; `Value` is the state of the chain from it outwards, and each
 method does to it what the function of module ResponseChain says.
 */
module ResponseWriters {
  import opened Wrappers
  import opened Bytes
  import opened ResponseChain

  class Recorder {
    var headers: Headers
    var heads: seq<Head>
    var body: seq<Bytes>

    function Value(): Rec
      reads this
    {
      Rec(headers, heads, body)
    }

    constructor (headers: Headers)
      ensures Value() == Rec(headers, [], [])
    {
      this.headers, heads, body := headers, [], [];
    }

    method WriteHeader(status: Status)
      modifies this
      ensures Value() == RecWriteHeader(old(Value()), status)
    {
      heads := heads + [Head(status, headers)];
    }

    method Write(data: Bytes)
      modifies this
      ensures Value() == RecWrite(old(Value()), data)
    {
      if heads == [] {
        WriteHeader(200);
      }
      body := body + [data];
    }

    /** The server's end of the request. */
    method Finish()
      modifies this
      ensures Value() == RecFinish(old(Value()))
    {
      if heads == [] {
        WriteHeader(200);
      }
    }
  }

  class ErrorPageResponseWriter {
    const cfg: Config
    const rw: Recorder
    var status: int
    var hijacked: bool

    ghost function Value(): Ep
      reads this, rw
    {
      Ep(rw.Value(), status, hijacked)
    }

    constructor (cfg: Config, rw: Recorder)
      ensures this.cfg == cfg && this.rw == rw && Value() == Ep(rw.Value(), 0, false)
    {
      this.cfg, this.rw, status, hijacked := cfg, rw, 0, false;
    }

    method WriteHeader(status: Status)
      modifies this, rw
      ensures Value() == EpWriteHeader(cfg, old(Value()), status)
    {
      if !cfg.errorPages {
        this.status, hijacked := status, false;
        rw.WriteHeader(status);
        return;
      }
      if this.status != 0 {
        return;
      }
      this.status := status;
      hijacked := false;
      if 400 <= status <= 599 && Get(rw.headers, "X-GitLab-Custom-Error") == ""
         && Get(rw.headers, CONTENT_TYPE) != "application/json"
      {
        var page := cfg.page(status);
        if page.Some? {
          hijacked := true;
          rw.headers := PageHeaders(rw.headers, page.value);
          rw.WriteHeader(status);
          rw.Write(page.value);
          return;
        }
      }
      rw.WriteHeader(status);
    }

    method Write(data: Bytes)
      modifies this, rw
      ensures Value() == EpWrite(cfg, old(Value()), data)
    {
      if cfg.errorPages && status == 0 {
        WriteHeader(200);
      }
      if !hijacked {
        rw.Write(data);
      }
    }

    method Flush()
      modifies this, rw
      ensures Value() == EpFlush(cfg, old(Value()))
    {
      if cfg.errorPages {
        WriteHeader(200);
      }
    }
  }

  /** Put around the outer writer while an injecter runs. */
  class CountingResponseWriter {
    const rw: ErrorPageResponseWriter
    var status: int
    var count: nat

    constructor (rw: ErrorPageResponseWriter)
      ensures this.rw == rw && status == 0 && count == 0
    {
      this.rw, status, count := rw, 0, 0;
    }

    method WriteHeader(s: Status)
      modifies this, rw, rw.rw
      ensures status == if old(status) != 0 then old(status) else s
      ensures rw.Value() == if old(status) != 0 then old(rw.Value())
                            else EpWriteHeader(rw.cfg, old(rw.Value()), s)
      ensures count == old(count)
    {
      if status != 0 {
        return;
      }
      status := s;
      rw.WriteHeader(s);
    }

    method Write(data: Bytes)
      modifies this, rw, rw.rw
      ensures status == if old(status) != 0 then old(status) else 200
      ensures rw.Value() == EpWrite(rw.cfg, if old(status) != 0 then old(rw.Value())
                                            else EpWriteHeader(rw.cfg, old(rw.Value()), 200), data)
      ensures count == old(count) + |data|
    {
      if status == 0 {
        WriteHeader(200);
      }
      rw.Write(data);
      count := count + |data|;
    }
  }

  class SendDataResponseWriter {
    const cfg: Config
    const rw: ErrorPageResponseWriter
    var status: int
    var hijacked: bool
    ghost var called: string

    ghost predicate Valid() { rw.cfg == cfg }

    ghost function Value(): Sd
      reads this, rw, rw.rw
    {
      Sd(rw.Value(), status, hijacked, called)
    }

    constructor (cfg: Config, rw: ErrorPageResponseWriter)
      requires rw.cfg == cfg
      ensures this.cfg == cfg && this.rw == rw && Valid() && Value() == Sd(rw.Value(), 0, false, "")
    {
      this.cfg, this.rw, status, hijacked, called := cfg, rw, 0, false, "";
    }

    method Inject(script: seq<Op>)
      requires Valid()
      modifies rw, rw.rw
      ensures rw.Value() == InjectOps(cfg, old(rw.Value()), 0, script)
    {
      var crw := new CountingResponseWriter(rw);
      var i := 0;
      while i < |script|
        invariant i <= |script| && crw.rw == rw
        invariant InjectOps(cfg, rw.Value(), crw.status, script[i..])
                  == InjectOps(cfg, old(rw.Value()), 0, script)
      {
        assert script[i..][1..] == script[i + 1..];
        match script[i] {
          case SetHeader(k, v) => rw.rw.headers := rw.rw.headers[k := v];
          case DelHeader(k) => rw.rw.headers := rw.rw.headers - {k};
          case WriteHeader(s) => crw.WriteHeader(s);
          case Write(data) => crw.Write(data);
        }
        i := i + 1;
      }
    }

    method TryInject() returns (injected: bool)
      requires Valid() && !hijacked
      modifies this`hijacked, this`called, rw, rw.rw
      ensures var headers := old(rw.rw.headers);
              var sendData := Get(headers, HEADER_KEY);
              var e := EpHeaders(old(rw.Value()), headers - {HEADER_KEY});
              && injected == hijacked == (sendData != "" && cfg.inject(sendData).Some?)
              && called == (if injected then sendData else old(called))
              && rw.Value() == if injected
                   then InjectOps(cfg, EpHeaders(e, e.rw.headers["X-Accel-Buffering" := "no"]), 0,
                                  cfg.inject(sendData).value)
                   else e
    {
      var header := Get(rw.rw.headers, HEADER_KEY);
      rw.rw.headers := rw.rw.headers - {HEADER_KEY};
      if header == "" {
        return false;
      }
      var script := cfg.inject(header);
      if script.None? {
        return false;
      }
      hijacked, called := true, header;
      rw.rw.headers := rw.rw.headers["X-Accel-Buffering" := "no"];
      Inject(script.value);
      return true;
    }

    method WriteHeader(status: Status)
      requires Valid()
      modifies this, rw, rw.rw
      ensures Value() == SdWriteHeader(cfg, old(Value()), status)
    {
      if this.status != 0 {
        return;
      }
      this.status, hijacked, called := status, false, "";
      if status == 200 {
        var injected := TryInject();
        if injected {
          return;
        }
      }
      assert (old(rw.rw.headers) - {HEADER_KEY}) - {HEADER_KEY} == old(rw.rw.headers) - {HEADER_KEY};
      rw.rw.headers := rw.rw.headers - {HEADER_KEY};
      rw.WriteHeader(status);
    }

    method Write(data: Bytes)
      requires Valid()
      modifies this, rw, rw.rw
      ensures Value() == SdWrite(cfg, old(Value()), data)
    {
      if status == 0 {
        WriteHeader(200);
      }
      if !hijacked {
        rw.Write(data);
      }
    }

    method Flush()
      requires Valid()
      modifies this, rw, rw.rw
      ensures Value() == SdWriteHeader(cfg, old(Value()), 200)
    {
      WriteHeader(200);
    }
  }

  class SendFileResponseWriter {
    const cfg: Config
    const rw: SendDataResponseWriter
    var status: int
    var hijacked: bool
    ghost var called: string

    ghost predicate Valid() { rw.cfg == cfg && rw.Valid() }

    ghost function Value(): Sf
      reads this, rw, rw.rw, rw.rw.rw
    {
      Sf(rw.Value(), status, hijacked, called)
    }

    constructor (cfg: Config, rw: SendDataResponseWriter)
      requires rw.cfg == cfg && rw.Valid()
      ensures this.cfg == cfg && this.rw == rw && Valid() && Value() == Sf(rw.Value(), 0, false, "")
    {
      this.cfg, this.rw, status, hijacked, called := cfg, rw, 0, false, "";
    }

    method SendFileFromDisk(script: seq<Op>)
      requires Valid()
      modifies rw, rw.rw, rw.rw.rw
      ensures rw.Value() == FileOps(cfg, old(rw.Value()), script)
    {
      var i := 0;
      while i < |script|
        invariant i <= |script|
        invariant FileOps(cfg, rw.Value(), script[i..]) == FileOps(cfg, old(rw.Value()), script)
      {
        assert script[i..][1..] == script[i + 1..];
        match script[i] {
          case SetHeader(k, v) => rw.rw.rw.headers := rw.rw.rw.headers[k := v];
          case DelHeader(k) => rw.rw.rw.headers := rw.rw.rw.headers - {k};
          case WriteHeader(s) => rw.WriteHeader(s);
          case Write(data) => rw.Write(data);
        }
        i := i + 1;
      }
    }

    method WriteHeader(status: Status)
      requires Valid()
      modifies this, rw, rw.rw, rw.rw.rw
      ensures Value() == SfWriteHeader(cfg, old(Value()), status)
    {
      if this.status != 0 {
        return;
      }
      this.status, hijacked, called := status, false, "";
      if status != 200 {
        rw.WriteHeader(status);
        return;
      }
      var file := Get(rw.rw.rw.headers, SEND_FILE);
      if file != "" {
        rw.rw.rw.headers := (rw.rw.rw.headers - {SEND_FILE})["X-Accel-Buffering" := "no"];
        hijacked, called := true, file;
        SendFileFromDisk(cfg.file(file));
        return;
      }
      rw.WriteHeader(status);
    }

    method Write(data: Bytes)
      requires Valid()
      modifies this, rw, rw.rw, rw.rw.rw
      ensures Value() == SfWrite(cfg, old(Value()), data)
    {
      if status == 0 {
        WriteHeader(200);
      }
      if !hijacked {
        rw.Write(data);
      }
    }

    method Flush()
      requires Valid()
      modifies this, rw, rw.rw, rw.rw.rw
      ensures Value() == SfWriteHeader(cfg, old(Value()), 200)
    {
      WriteHeader(200);
    }
  }

  class Blocker {
    const cfg: Config
    const rw: SendFileResponseWriter
    var status: int
    var hijacked: bool

    ghost predicate Valid() { rw.cfg == cfg && rw.Valid() }

    ghost function Value(): Bl
      reads this, rw, rw.rw, rw.rw.rw, rw.rw.rw.rw
    {
      Bl(rw.Value(), status, hijacked)
    }

    constructor (cfg: Config, rw: SendFileResponseWriter)
      requires rw.cfg == cfg && rw.Valid()
      ensures this.cfg == cfg && this.rw == rw && Valid() && Value() == Bl(rw.Value(), 0, false)
    {
      this.cfg, this.rw, status, hijacked := cfg, rw, 0, false;
    }

    method WriteHeader(status: Status)
      requires Valid()
      modifies this, rw, rw.rw, rw.rw.rw, rw.rw.rw.rw
      ensures Value() == BlWriteHeader(cfg, old(Value()), status)
    {
      if this.status != 0 {
        return;
      }
      var client := rw.rw.rw.rw;
      if cfg.isInternal(Get(client.headers, CONTENT_TYPE)) {
        this.status, hijacked := 500, true;
        client.headers := client.headers - {CONTENT_LENGTH};
        client.headers := client.headers[CONTENT_TYPE := "text/plain; charset=utf-8"][
                            "X-Content-Type-Options" := "nosniff"];
        rw.WriteHeader(500);
        rw.Write(cfg.errorText);
        return;
      }
      this.status, hijacked := status, false;
      rw.WriteHeader(status);
    }

    method Write(data: Bytes)
      requires Valid()
      modifies this, rw, rw.rw, rw.rw.rw, rw.rw.rw.rw
      ensures Value() == BlWrite(cfg, old(Value()), data)
    {
      if status == 0 {
        WriteHeader(200);
      }
      if !hijacked {
        rw.Write(data);
      }
    }
  }

  /** The handler's calls, on the innermost writer and on the header map it returns. */
  method Handle(b: Blocker, ops: seq<Op>)
    requires b.Valid()
    modifies b, b.rw, b.rw.rw, b.rw.rw.rw, b.rw.rw.rw.rw
    ensures b.Value() == HandlerOps(b.cfg, old(b.Value()), ops)
  {
    hide BlWriteHeader, BlWrite;
    var client := b.rw.rw.rw.rw;
    var i := 0;
    while i < |ops|
      invariant i <= |ops|
      invariant HandlerOps(b.cfg, b.Value(), ops[i..]) == HandlerOps(b.cfg, old(b.Value()), ops)
    {
      assert ops[i..][1..] == ops[i + 1..];
      match ops[i] {
        case SetHeader(k, v) => client.headers := client.headers[k := v];
        case DelHeader(k) => client.headers := client.headers - {k};
        case WriteHeader(s) => b.WriteHeader(s);
        case Write(data) => b.Write(data);
      }
      i := i + 1;
    }
  }

  /** The chain of the routing table around a handler that makes the calls `ops`,
      followed by the deferred flushes, innermost first, and the return to the server. */
  method Serve(cfg: Config, headers: Headers, ops: seq<Op>) returns (client: Recorder)
    ensures client.Value() == Client(Respond(cfg, headers, ops))
    ensures |client.heads| == 1
  {
    hide BlWriteHeader, SfWriteHeader, SdWriteHeader, EpWriteHeader, HandlerOps;
    client := new Recorder(headers);
    var e := new ErrorPageResponseWriter(cfg, client);
    var d := new SendDataResponseWriter(cfg, e);
    var f := new SendFileResponseWriter(cfg, d);
    var b := new Blocker(cfg, f);
    Handle(b, ops);
    b.WriteHeader(200);
    f.Flush();
    d.Flush();
    e.Flush();
    client.Finish();
    OneHeadOneBody(cfg, headers, ops);
  }
}
