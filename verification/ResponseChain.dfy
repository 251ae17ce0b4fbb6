/**
 The chain of response writers around the proxy: SendData over SendFile over Block,
 with ErrorPages outside (internal/senddata/senddata.go, internal/sendfile/sendfile.go,
 internal/api/block.go, internal/staticpages/error_pages.go,
 internal/helper/countingresponsewriter.go). Each layer wraps the next one outwards
 in its field `rw`; all share the header map of the outermost writer.
 */
module ResponseChain {
  import opened Wrappers
  import opened Bytes

  type Status = s: int | 100 <= s < 1000 witness 200
  type Headers = map<string, string>

  const HEADER_KEY := "Gitlab-Workhorse-Send-Data"
  const SEND_FILE := "X-Sendfile"
  const CONTENT_TYPE := "Content-Type"
  const CONTENT_LENGTH := "Content-Length"

  /** A call on a response writer, or on the header map it returns. */
  datatype Op =
    | SetHeader(key: string, value: string)
    | DelHeader(key: string)
    | WriteHeader(status: Status)
    | Write(data: Bytes)

  /** What the layers consult: injecters and files as the calls they make, error
      pages by status, the internal content type, and the fixed message. */
  datatype Config = Config(
    inject: string -> Option<seq<Op>>,
    file: string -> seq<Op>,
    errorPages: bool,
    page: Status -> Option<Bytes>,
    isInternal: string -> bool,
    errorText: Bytes)

  function Get(h: Headers, key: string): string { if key in h then h[key] else "" }

  /** All data of the Write calls, in order. */
  function Writes(ops: seq<Op>): seq<Bytes> {
    if ops == [] then []
    else (if ops[0].Write? then [ops[0].data] else []) + Writes(ops[1..])
  }

  // ---------------------------------------------------------------------------
  // The outermost writer
  // ---------------------------------------------------------------------------

  datatype Head = Head(status: Status, headers: Headers)

  /** What the client gets: every WriteHeader that comes through, and the body. */
  datatype Rec = Rec(headers: Headers, heads: seq<Head>, body: seq<Bytes>)

  function RecWriteHeader(r: Rec, status: Status): Rec {
    r.(heads := r.heads + [Head(status, r.headers)])
  }

  /** A body without a head makes the head a 200. */
  function RecWrite(r: Rec, data: Bytes): Rec {
    var r' := RecFinish(r);
    r'.(body := r'.body + [data])
  }

  /** When the outermost handler returns without a head, net/http sends a 200 with the
      header map as it is then. */
  function RecFinish(r: Rec): Rec { if r.heads == [] then RecWriteHeader(r, 200) else r }

  // ---------------------------------------------------------------------------
  // ErrorPages
  // ---------------------------------------------------------------------------

  datatype Ep = Ep(rw: Rec, status: int, hijacked: bool)

  function NoCacheHeaders(h: Headers): Headers {
    h["Cache-Control" := "no-cache, no-store, max-age=0, must-revalidate"]["Pragma" := "no-cache"][
      "Expires" := "Fri, 01 Jan 1990 00:00:00 GMT"]
  }

  function PageHeaders(h: Headers, page: Bytes): Headers {
    NoCacheHeaders(h)[CONTENT_TYPE := "text/html; charset=utf-8"][CONTENT_LENGTH := Decimal(|page|)]
      - {"Transfer-Encoding"}
  }

  predicate HasPage(cfg: Config, h: Headers, status: Status) {
    && 400 <= status <= 599 && Get(h, "X-GitLab-Custom-Error") == ""
    && Get(h, CONTENT_TYPE) != "application/json" && cfg.page(status).Some?
  }

  /** Without ErrorPages every call goes straight to the client. */
  function EpWriteHeader(cfg: Config, e: Ep, status: Status): Ep {
    if !cfg.errorPages then Ep(RecWriteHeader(e.rw, status), status, false)
    else if e.status != 0 then e
    else if HasPage(cfg, e.rw.headers, status) then
      var page := cfg.page(status).value;
      var rec := e.rw.(headers := PageHeaders(e.rw.headers, page));
      Ep(RecWrite(RecWriteHeader(rec, status), page), status, true)
    else Ep(RecWriteHeader(e.rw, status), status, false)
  }

  function EpWrite(cfg: Config, e: Ep, data: Bytes): Ep {
    var e' := if cfg.errorPages && e.status == 0 then EpWriteHeader(cfg, e, 200) else e;
    if e'.hijacked then e' else e'.(rw := RecWrite(e'.rw, data))
  }

  function EpFlush(cfg: Config, e: Ep): Ep {
    if cfg.errorPages then EpWriteHeader(cfg, e, 200) else e
  }

  /** The deferred flush, then the return to the server. */
  function EpEnd(cfg: Config, e: Ep): Ep {
    var e' := EpFlush(cfg, e);
    e'.(rw := RecFinish(e'.rw))
  }

  function EpHeaders(e: Ep, h: Headers): Ep { e.(rw := e.rw.(headers := h)) }

  // ---------------------------------------------------------------------------
  // SendData
  // ---------------------------------------------------------------------------

  /** `called` remembers the header value that called the injecter. */
  datatype Sd = Sd(rw: Ep, status: int, hijacked: bool, called: string)

  function SdHeaders(d: Sd, h: Headers): Sd { d.(rw := EpHeaders(d.rw, h)) }

  /** An injecter writes through a counting writer, for which the first status wins;
      `counted` is that status. */
  function InjectOps(cfg: Config, e: Ep, counted: int, ops: seq<Op>): Ep
    decreases |ops|
  {
    if ops == [] then e
    else match ops[0]
      case SetHeader(k, v) => InjectOps(cfg, EpHeaders(e, e.rw.headers[k := v]), counted, ops[1..])
      case DelHeader(k) => InjectOps(cfg, EpHeaders(e, e.rw.headers - {k}), counted, ops[1..])
      case WriteHeader(s) =>
        if counted != 0 then InjectOps(cfg, e, counted, ops[1..])
        else InjectOps(cfg, EpWriteHeader(cfg, e, s), s, ops[1..])
      case Write(data) =>
        if counted != 0 then InjectOps(cfg, EpWrite(cfg, e, data), counted, ops[1..])
        else InjectOps(cfg, EpWrite(cfg, EpWriteHeader(cfg, e, 200), data), 200, ops[1..])
  }

  function SdWriteHeader(cfg: Config, d: Sd, status: Status): Sd {
    if d.status != 0 then d
    else
      var headers := d.rw.rw.headers;
      var sendData := Get(headers, HEADER_KEY);
      var e := EpHeaders(d.rw, headers - {HEADER_KEY});
      if status == 200 && sendData != "" && cfg.inject(sendData).Some? then
        var e' := EpHeaders(e, e.rw.headers["X-Accel-Buffering" := "no"]);
        Sd(InjectOps(cfg, e', 0, cfg.inject(sendData).value), status, true, sendData)
      else Sd(EpWriteHeader(cfg, e, status), status, false, "")
  }

  function SdWrite(cfg: Config, d: Sd, data: Bytes): Sd {
    var d' := SdWriteHeader(cfg, d, 200);
    if d'.hijacked then d' else d'.(rw := EpWrite(cfg, d'.rw, data))
  }

  // ---------------------------------------------------------------------------
  // SendFile
  // ---------------------------------------------------------------------------

  /** `called` remembers the name of the file. */
  datatype Sf = Sf(rw: Sd, status: int, hijacked: bool, called: string)

  function SfHeaders(f: Sf, h: Headers): Sf { f.(rw := SdHeaders(f.rw, h)) }

  /** sendFileFromDisk: a 404 or the content, written to the SendData layer. */
  function FileOps(cfg: Config, d: Sd, ops: seq<Op>): Sd
    decreases |ops|
  {
    if ops == [] then d
    else match ops[0]
      case SetHeader(k, v) => FileOps(cfg, SdHeaders(d, d.rw.rw.headers[k := v]), ops[1..])
      case DelHeader(k) => FileOps(cfg, SdHeaders(d, d.rw.rw.headers - {k}), ops[1..])
      case WriteHeader(s) => FileOps(cfg, SdWriteHeader(cfg, d, s), ops[1..])
      case Write(data) => FileOps(cfg, SdWrite(cfg, d, data), ops[1..])
  }

  function SfWriteHeader(cfg: Config, f: Sf, status: Status): Sf {
    if f.status != 0 then f
    else
      var headers := f.rw.rw.rw.headers;
      var file := Get(headers, SEND_FILE);
      if status == 200 && file != "" then
        var d := SdHeaders(f.rw, (headers - {SEND_FILE})["X-Accel-Buffering" := "no"]);
        Sf(FileOps(cfg, d, cfg.file(file)), status, true, file)
      else Sf(SdWriteHeader(cfg, f.rw, status), status, false, "")
  }

  function SfWrite(cfg: Config, f: Sf, data: Bytes): Sf {
    var f' := SfWriteHeader(cfg, f, 200);
    if f'.hijacked then f' else f'.(rw := SdWrite(cfg, f'.rw, data))
  }

  // ---------------------------------------------------------------------------
  // Block
  // ---------------------------------------------------------------------------

  datatype Bl = Bl(rw: Sf, status: int, hijacked: bool)

  function BlHeaders(b: Bl, h: Headers): Bl { b.(rw := SfHeaders(b.rw, h)) }

  function HeadersOf(b: Bl): Headers { b.rw.rw.rw.rw.headers }

  /** helper.Fail500, that is http.Error with the fixed text. */
  function Fail500(cfg: Config, f: Sf): Sf {
    var h := f.rw.rw.rw.headers[CONTENT_TYPE := "text/plain; charset=utf-8"][
               "X-Content-Type-Options" := "nosniff"];
    SfWrite(cfg, SfWriteHeader(cfg, SfHeaders(f, h), 500), cfg.errorText)
  }

  function BlWriteHeader(cfg: Config, b: Bl, status: Status): Bl {
    if b.status != 0 then b
    else if cfg.isInternal(Get(HeadersOf(b), CONTENT_TYPE)) then
      var f := SfHeaders(b.rw, HeadersOf(b) - {CONTENT_LENGTH});
      Bl(Fail500(cfg, f), 500, true)
    else Bl(SfWriteHeader(cfg, b.rw, status), status, false)
  }

  function BlWrite(cfg: Config, b: Bl, data: Bytes): Bl {
    var b' := BlWriteHeader(cfg, b, 200);
    if b'.hijacked then b' else b'.(rw := SfWrite(cfg, b'.rw, data))
  }

  // ---------------------------------------------------------------------------
  // The handler and the deferred flushes
  // ---------------------------------------------------------------------------

  function HandlerOp(cfg: Config, b: Bl, op: Op): Bl {
    match op
    case SetHeader(k, v) => BlHeaders(b, HeadersOf(b)[k := v])
    case DelHeader(k) => BlHeaders(b, HeadersOf(b) - {k})
    case WriteHeader(s) => BlWriteHeader(cfg, b, s)
    case Write(data) => BlWrite(cfg, b, data)
  }

  function HandlerOps(cfg: Config, b: Bl, ops: seq<Op>): Bl
    decreases |ops|
  {
    if ops == [] then b else HandlerOps(cfg, HandlerOp(cfg, b, ops[0]), ops[1..])
  }

  /** Innermost first: Block, SendFile, SendData, ErrorPages, and the server at last. */
  function Flushes(cfg: Config, b: Bl): Bl {
    var b1 := BlWriteHeader(cfg, b, 200);
    var f := SfWriteHeader(cfg, b1.rw, 200);
    var d := SdWriteHeader(cfg, f.rw, 200);
    b1.(rw := f.(rw := d.(rw := EpEnd(cfg, d.rw))))
  }

  function Initial(h: Headers): Bl {
    Bl(Sf(Sd(Ep(Rec(h, [], []), 0, false), 0, false, ""), 0, false, ""), 0, false)
  }

  function Respond(cfg: Config, h: Headers, ops: seq<Op>): Bl {
    Flushes(cfg, HandlerOps(cfg, Initial(h), ops))
  }

  function Client(b: Bl): Rec { b.rw.rw.rw.rw }

  /** A script that sends nothing: it only touches headers. */
  predicate Silent(ops: seq<Op>) { forall op | op in ops :: op.SetHeader? || op.DelHeader? }

  // ---------------------------------------------------------------------------
  // ErrorPages: one head, one body
  // ---------------------------------------------------------------------------

  predicate EpFresh(e: Ep) { e.status == 0 && !e.hijacked && e.rw.heads == [] && e.rw.body == [] }

  /** One head went out, and the body is the page or exactly `data`. */
  predicate EpSent(cfg: Config, e: Ep, data: seq<Bytes>) {
    && e.status != 0 && |e.rw.heads| == 1 && e.rw.heads[0].status == e.status
    && (e.hijacked ==> cfg.errorPages)
    && if e.hijacked
       then cfg.page(e.rw.heads[0].status).Some? && e.rw.body == [cfg.page(e.rw.heads[0].status).value]
       else e.rw.body == data
  }

  lemma EpHeadersKeep(cfg: Config, e: Ep, h: Headers, sent: seq<Bytes>)
    ensures EpFresh(e) ==> EpFresh(EpHeaders(e, h))
    ensures EpSent(cfg, e, sent) ==> EpSent(cfg, EpHeaders(e, h), sent)
  {
  }

  lemma EpSends(cfg: Config, e: Ep, status: Status, sent: seq<Bytes>, data: Bytes)
    ensures EpFresh(e) ==> EpSent(cfg, EpWriteHeader(cfg, e, status), [])
    ensures EpSent(cfg, e, sent) ==> EpSent(cfg, EpWrite(cfg, e, data), sent + [data])
  {
  }

  lemma {:induction false} InjectSends(cfg: Config, e: Ep, counted: int, ops: seq<Op>, sent: seq<Bytes>)
    requires if counted == 0 then EpFresh(e) && sent == [] else EpSent(cfg, e, sent)
    ensures var e' := InjectOps(cfg, e, counted, ops);
            if counted == 0 && Silent(ops) then EpFresh(e') && Writes(ops) == []
            else EpSent(cfg, e', sent + Writes(ops))
    decreases |ops|
  {
    hide EpFresh, EpSent, EpWriteHeader, EpWrite, EpHeaders, Silent;
    if ops == [] {
      assert sent + [] == sent;
      assert Silent(ops) by { SilentNone(); }
    } else {
      SilentStep(ops);
      assert !ops[0].Write? ==> Writes(ops) == Writes(ops[1..]);
      match ops[0] {
        case SetHeader(k, v) =>
          EpHeadersKeep(cfg, e, e.rw.headers[k := v], sent);
          InjectSends(cfg, EpHeaders(e, e.rw.headers[k := v]), counted, ops[1..], sent);
        case DelHeader(k) =>
          EpHeadersKeep(cfg, e, e.rw.headers - {k}, sent);
          InjectSends(cfg, EpHeaders(e, e.rw.headers - {k}), counted, ops[1..], sent);
        case WriteHeader(s) =>
          EpSends(cfg, e, s, sent, []);
          InjectSends(cfg, if counted != 0 then e else EpWriteHeader(cfg, e, s), if counted != 0 then counted else s,
                      ops[1..], sent);
        case Write(data) =>
          assert sent + Writes(ops) == (sent + [data]) + Writes(ops[1..]);
          var e1 := if counted != 0 then e else EpWriteHeader(cfg, e, 200);
          EpSends(cfg, e, 200, sent, data);
          EpSends(cfg, e1, 200, sent, data);
          InjectSends(cfg, EpWrite(cfg, e1, data), if counted != 0 then counted else 200, ops[1..], sent + [data]);
      }
    }
  }

  lemma SilentNone()
    ensures Silent([])
  {
  }

  lemma SilentStep(ops: seq<Op>)
    requires ops != []
    ensures Silent(ops) <==> (ops[0].SetHeader? || ops[0].DelHeader?) && Silent(ops[1..])
  {
    assert ops == [ops[0]] + ops[1..];
  }

  // ---------------------------------------------------------------------------
  // SendData
  // ---------------------------------------------------------------------------

  predicate SdFresh(d: Sd) { d.status == 0 && !d.hijacked && EpFresh(d.rw) }

  /** The injecter called by the recorded header value has run; a silent one has sent nothing. */
  predicate Injected(cfg: Config, d: Sd) {
    && d.called != "" && cfg.inject(d.called).Some?
    && var script := cfg.inject(d.called).value;
       if Silent(script) then EpFresh(d.rw) && Writes(script) == [] else EpSent(cfg, d.rw, Writes(script))
  }

  predicate SdSent(cfg: Config, d: Sd, data: seq<Bytes>) {
    d.status != 0 && if d.hijacked then Injected(cfg, d) else EpSent(cfg, d.rw, data)
  }

  lemma SdHeaderSends(cfg: Config, d: Sd, status: Status)
    requires SdFresh(d)
    ensures SdSent(cfg, SdWriteHeader(cfg, d, status), [])
  {
    var headers := d.rw.rw.headers;
    var sendData := Get(headers, HEADER_KEY);
    if status == 200 && sendData != "" && cfg.inject(sendData).Some? {
      var e := EpHeaders(EpHeaders(d.rw, headers - {HEADER_KEY}),
                         (headers - {HEADER_KEY})["X-Accel-Buffering" := "no"]);
      var script := cfg.inject(sendData).value;
      InjectSends(cfg, e, 0, script, []);
      assert [] + Writes(script) == Writes(script);
    }
  }

  lemma SdWriteSends(cfg: Config, d: Sd, sent: seq<Bytes>, data: Bytes)
    requires SdSent(cfg, d, sent) || (SdFresh(d) && sent == [])
    ensures SdSent(cfg, SdWrite(cfg, d, data), sent + [data])
  {
    if SdFresh(d) {
      SdHeaderSends(cfg, d, 200);
    }
  }

  // ---------------------------------------------------------------------------
  // SendFile
  // ---------------------------------------------------------------------------

  predicate SfFresh(f: Sf) { f.status == 0 && !f.hijacked && SdFresh(f.rw) }

  predicate FileSent(cfg: Config, f: Sf) {
    && f.called != ""
    && var script := cfg.file(f.called);
       if Silent(script) then SdFresh(f.rw) && Writes(script) == [] else SdSent(cfg, f.rw, Writes(script))
  }

  /** After the deferred flush of SendData a silent file no longer holds the head back. */
  predicate FileDone(cfg: Config, f: Sf) {
    f.called != "" && SdSent(cfg, f.rw, Writes(cfg.file(f.called)))
  }

  predicate SfSent(cfg: Config, f: Sf, data: seq<Bytes>) {
    f.status != 0 && if f.hijacked then FileSent(cfg, f) || FileDone(cfg, f) else SdSent(cfg, f.rw, data)
  }

  /** One call of a file's script on the SendData layer. */
  function FileOp(cfg: Config, d: Sd, op: Op): Sd {
    match op
    case SetHeader(k, v) => SdHeaders(d, d.rw.rw.headers[k := v])
    case DelHeader(k) => SdHeaders(d, d.rw.rw.headers - {k})
    case WriteHeader(s) => SdWriteHeader(cfg, d, s)
    case Write(data) => SdWrite(cfg, d, data)
  }

  lemma FileOpSends(cfg: Config, d: Sd, op: Op, sent: seq<Bytes>)
    requires SdSent(cfg, d, sent) || (SdFresh(d) && sent == [])
    ensures var d' := FileOp(cfg, d, op);
            if SdFresh(d) && (op.SetHeader? || op.DelHeader?) then SdFresh(d')
            else SdSent(cfg, d', if op.Write? then sent + [op.data] else sent) && !SdFresh(d')
  {
    match op {
      case SetHeader(k, v) => SdHeadersKeep(cfg, d, d.rw.rw.headers[k := v], sent);
      case DelHeader(k) => SdHeadersKeep(cfg, d, d.rw.rw.headers - {k}, sent);
      case WriteHeader(s) =>
        if d.status == 0 {
          SdHeaderSends(cfg, d, s);
        }
      case Write(data) => SdWriteSends(cfg, d, sent, data);
    }
  }

  lemma {:induction false} FileSends(cfg: Config, d: Sd, ops: seq<Op>, sent: seq<Bytes>)
    requires SdSent(cfg, d, sent) || (SdFresh(d) && sent == [])
    ensures var d' := FileOps(cfg, d, ops);
            if SdFresh(d) && Silent(ops) then SdFresh(d') && Writes(ops) == []
            else SdSent(cfg, d', sent + Writes(ops)) || (SdFresh(d') && sent + Writes(ops) == [])
    ensures SdFresh(d) && !Silent(ops) ==> !SdFresh(FileOps(cfg, d, ops))
    ensures !SdFresh(d) ==> !SdFresh(FileOps(cfg, d, ops))
    decreases |ops|
  {
    hide SdSent, SdFresh, SdHeaders, SdWriteHeader, SdWrite, FileOp, FileOps;
    FileStep(cfg, d, ops);
    FreshIsNotSent(cfg, d, sent);
    if ops == [] {
      assert sent + [] == sent;
    } else {
      FileOpSends(cfg, d, ops[0], sent);
      var more := if ops[0].Write? then sent + [ops[0].data] else sent;
      assert sent + Writes(ops) == more + Writes(ops[1..]);
      SilentStep(ops);
      FileSends(cfg, FileOp(cfg, d, ops[0]), ops[1..], more);
    }
  }

  lemma FreshIsNotSent(cfg: Config, d: Sd, sent: seq<Bytes>)
    ensures !(SdFresh(d) && SdSent(cfg, d, sent))
  {
  }

  lemma FileStep(cfg: Config, d: Sd, ops: seq<Op>)
    ensures FileOps(cfg, d, ops) == if ops == [] then d else FileOps(cfg, FileOp(cfg, d, ops[0]), ops[1..])
  {
  }

  lemma SdHeadersKeep(cfg: Config, d: Sd, h: Headers, sent: seq<Bytes>)
    ensures SdFresh(d) ==> SdFresh(SdHeaders(d, h))
    ensures SdSent(cfg, d, sent) ==> SdSent(cfg, SdHeaders(d, h), sent)
  {
  }

  lemma SfHeadersKeep(cfg: Config, f: Sf, h: Headers, sent: seq<Bytes>)
    ensures SfFresh(f) ==> SfFresh(SfHeaders(f, h))
    ensures SfSent(cfg, f, sent) ==> SfSent(cfg, SfHeaders(f, h), sent)
  {
    SdHeadersKeep(cfg, f.rw, h, sent);
    SdHeadersKeep(cfg, f.rw, h, Writes(cfg.file(f.called)));
  }

  lemma SfHeaderSends(cfg: Config, f: Sf, status: Status)
    requires SfFresh(f)
    ensures SfSent(cfg, SfWriteHeader(cfg, f, status), [])
  {
    var headers := f.rw.rw.rw.headers;
    var file := Get(headers, SEND_FILE);
    if status == 200 && file != "" {
      var d := SdHeaders(f.rw, (headers - {SEND_FILE})["X-Accel-Buffering" := "no"]);
      FileSends(cfg, d, cfg.file(file), []);
      assert [] + Writes(cfg.file(file)) == Writes(cfg.file(file));
    } else {
      SdHeaderSends(cfg, f.rw, status);
    }
  }

  lemma SfWriteSends(cfg: Config, f: Sf, sent: seq<Bytes>, data: Bytes)
    requires SfSent(cfg, f, sent) || (SfFresh(f) && sent == [])
    ensures SfSent(cfg, SfWrite(cfg, f, data), sent + [data])
  {
    var f' := SfWriteHeader(cfg, f, 200);
    if SfFresh(f) {
      SfHeaderSends(cfg, f, 200);
    }
    if !f'.hijacked {
      SdWriteSends(cfg, f'.rw, sent, data);
    }
  }

  // ---------------------------------------------------------------------------
  // Block and the handler
  // ---------------------------------------------------------------------------

  predicate BlFresh(b: Bl) { b.status == 0 && !b.hijacked && SfFresh(b.rw) }

  predicate BlSent(cfg: Config, b: Bl, data: seq<Bytes>) {
    b.status != 0 && SfSent(cfg, b.rw, if b.hijacked then [cfg.errorText] else data)
  }

  lemma Fail500Sends(cfg: Config, f: Sf)
    requires SfFresh(f)
    ensures SfSent(cfg, Fail500(cfg, f), [cfg.errorText])
  {
    var h := f.rw.rw.rw.headers[CONTENT_TYPE := "text/plain; charset=utf-8"][
               "X-Content-Type-Options" := "nosniff"];
    var f1 := SfHeaders(f, h);
    SfHeaderSends(cfg, f1, 500);
    SfWriteSends(cfg, SfWriteHeader(cfg, f1, 500), [], cfg.errorText);
    assert [] + [cfg.errorText] == [cfg.errorText];
  }

  lemma BlHeaderSends(cfg: Config, b: Bl, status: Status)
    requires BlFresh(b)
    ensures BlSent(cfg, BlWriteHeader(cfg, b, status), [])
  {
    if cfg.isInternal(Get(HeadersOf(b), CONTENT_TYPE)) {
      Fail500Sends(cfg, SfHeaders(b.rw, HeadersOf(b) - {CONTENT_LENGTH}));
    } else {
      SfHeaderSends(cfg, b.rw, status);
    }
  }

  lemma {:induction false} HandlerSends(cfg: Config, b: Bl, ops: seq<Op>, sent: seq<Bytes>)
    requires BlSent(cfg, b, sent) || (BlFresh(b) && sent == [])
    ensures var b' := HandlerOps(cfg, b, ops);
            || BlSent(cfg, b', sent + Writes(ops))
            || (BlFresh(b') && sent + Writes(ops) == [])
    decreases |ops|
  {
    if ops == [] {
      assert sent + [] == sent;
    } else {
      HandlerOpSends(cfg, b, ops[0], sent);
      var more := if ops[0].Write? then sent + [ops[0].data] else sent;
      assert sent + Writes(ops) == more + Writes(ops[1..]);
      HandlerSends(cfg, HandlerOp(cfg, b, ops[0]), ops[1..], more);
    }
  }

  lemma HandlerOpSends(cfg: Config, b: Bl, op: Op, sent: seq<Bytes>)
    requires BlSent(cfg, b, sent) || (BlFresh(b) && sent == [])
    ensures var b' := HandlerOp(cfg, b, op);
            var more := if op.Write? then sent + [op.data] else sent;
            BlSent(cfg, b', more) || (BlFresh(b') && more == [])
  {
    match op {
      case SetHeader(k, v) =>
        SfHeadersKeep(cfg, b.rw, HeadersOf(b)[k := v], if b.hijacked then [cfg.errorText] else sent);
      case DelHeader(k) =>
        SfHeadersKeep(cfg, b.rw, HeadersOf(b) - {k}, if b.hijacked then [cfg.errorText] else sent);
      case WriteHeader(s) =>
        if BlFresh(b) {
          BlHeaderSends(cfg, b, s);
        }
      case Write(data) =>
        var b1 := BlWriteHeader(cfg, b, 200);
        if BlFresh(b) {
          BlHeaderSends(cfg, b, 200);
        }
        if !b1.hijacked {
          SfWriteSends(cfg, b1.rw, sent, data);
        }
    }
  }

  // ---------------------------------------------------------------------------
  // The whole response
  // ---------------------------------------------------------------------------

  /** After the flushes of Block, SendFile and SendData, before that of ErrorPages. */
  function BeforeLastFlush(cfg: Config, h: Headers, ops: seq<Op>): Bl {
    var b := BlWriteHeader(cfg, HandlerOps(cfg, Initial(h), ops), 200);
    var f := SfWriteHeader(cfg, b.rw, 200);
    b.(rw := f.(rw := SdWriteHeader(cfg, f.rw, 200)))
  }

  lemma BlockFlushSends(cfg: Config, h: Headers, ops: seq<Op>)
    ensures BlSent(cfg, BlWriteHeader(cfg, HandlerOps(cfg, Initial(h), ops), 200), Writes(ops))
  {
    var b := HandlerOps(cfg, Initial(h), ops);
    HandlerSends(cfg, Initial(h), ops, []);
    assert [] + Writes(ops) == Writes(ops);
    if BlFresh(b) {
      BlHeaderSends(cfg, b, 200);
    }
  }

  /** The parts of a response: the last writer that took over decides. */
  predicate BodyIs(cfg: Config, b: Bl, own: seq<Bytes>) {
    var c := Client(b);
    if b.rw.rw.rw.hijacked then
      |c.heads| == 1 && cfg.page(c.heads[0].status).Some? && c.body == [cfg.page(c.heads[0].status).value]
    else if b.rw.rw.hijacked then
      cfg.inject(b.rw.rw.called).Some? && c.body == Writes(cfg.inject(b.rw.rw.called).value)
    else if b.rw.hijacked then c.body == Writes(cfg.file(b.rw.called))
    else if b.hijacked then c.body == [cfg.errorText]
    else c.body == own
  }

  /**
   For every handler, on a route with error pages or without, the client gets exactly one
   head, and the body is wholly the handler's or wholly one substitute: the error page,
   what the injecter called by the Send-Data header wrote, the file named by X-Sendfile,
   or the fixed text.
   */
  lemma OneHeadOneBody(cfg: Config, h: Headers, ops: seq<Op>)
    ensures var b := Respond(cfg, h, ops);
            && |Client(b).heads| == 1
            && (b.rw.rw.rw.hijacked ==> cfg.errorPages)
            && BodyIs(cfg, b, Writes(ops))
  {
    BlockFlushSends(cfg, h, ops);
    var b := BlWriteHeader(cfg, HandlerOps(cfg, Initial(h), ops), 200);
    var d := b.rw.rw;
    if b.rw.hijacked {
      if SdFresh(d) {
        SdHeaderSends(cfg, d, 200);
      }
      SendDataBody(cfg, SdWriteHeader(cfg, d, 200), Writes(cfg.file(b.rw.called)));
    } else {
      SendDataBody(cfg, d, if b.hijacked then [cfg.errorText] else Writes(ops));
    }
  }

  lemma SendDataBody(cfg: Config, d: Sd, data: seq<Bytes>)
    requires SdSent(cfg, d, data)
    ensures var e := EpEnd(cfg, d.rw);
            && |e.rw.heads| == 1
            && (e.hijacked ==> cfg.errorPages)
            && if e.hijacked then
                 |e.rw.heads| == 1 && cfg.page(e.rw.heads[0].status).Some?
                 && e.rw.body == [cfg.page(e.rw.heads[0].status).value]
               else if d.hijacked then
                 cfg.inject(d.called).Some? && e.rw.body == Writes(cfg.inject(d.called).value)
               else e.rw.body == data
  {
  }

  // ---------------------------------------------------------------------------
  // The Send-Data header
  // ---------------------------------------------------------------------------

  /** No injecter sets the header that calls injecters. */
  ghost predicate InjectersLeaveKeyAlone(cfg: Config) {
    forall x, v | cfg.inject(x).Some? :: SetHeader(HEADER_KEY, v) !in cfg.inject(x).value
  }

  /** No head that went out has the key, and one did once there is a status. */
  predicate Clean(e: Ep) {
    (e.status != 0 ==> e.rw.heads != []) && forall head | head in e.rw.heads :: HEADER_KEY !in head.headers
  }

  lemma EpHeaderKeepsClean(cfg: Config, e: Ep, status: Status)
    requires Clean(e) && HEADER_KEY !in e.rw.headers
    ensures Clean(EpWriteHeader(cfg, e, status)) && HEADER_KEY !in EpWriteHeader(cfg, e, status).rw.headers
  {
  }

  lemma EpWriteKeepsClean(cfg: Config, e: Ep, data: Bytes)
    requires Clean(e) && HEADER_KEY !in e.rw.headers
    ensures Clean(EpWrite(cfg, e, data)) && HEADER_KEY !in EpWrite(cfg, e, data).rw.headers
  {
    EpHeaderKeepsClean(cfg, e, 200);
    hide EpWriteHeader;
  }

  lemma {:induction false} InjectKeepsClean(cfg: Config, e: Ep, counted: int, ops: seq<Op>)
    requires Clean(e) && HEADER_KEY !in e.rw.headers
    requires forall v :: SetHeader(HEADER_KEY, v) !in ops
    ensures Clean(InjectOps(cfg, e, counted, ops))
    decreases |ops|
  {
    hide EpWriteHeader, EpWrite;
    if ops != [] {
      assert ops[0] in ops;
      assert forall v :: SetHeader(HEADER_KEY, v) !in ops[1..];
      match ops[0] {
        case SetHeader(k, v) => InjectKeepsClean(cfg, EpHeaders(e, e.rw.headers[k := v]), counted, ops[1..]);
        case DelHeader(k) => InjectKeepsClean(cfg, EpHeaders(e, e.rw.headers - {k}), counted, ops[1..]);
        case WriteHeader(s) =>
          EpHeaderKeepsClean(cfg, e, s);
          InjectKeepsClean(cfg, if counted != 0 then e else EpWriteHeader(cfg, e, s),
                           if counted != 0 then counted else s, ops[1..]);
        case Write(data) =>
          var e1 := if counted != 0 then e else EpWriteHeader(cfg, e, 200);
          EpHeaderKeepsClean(cfg, e, 200);
          EpWriteKeepsClean(cfg, e1, data);
          InjectKeepsClean(cfg, EpWrite(cfg, e1, data), if counted != 0 then counted else 200, ops[1..]);
      }
    }
  }

  lemma SdHeaderKeepsClean(cfg: Config, d: Sd, status: Status)
    requires InjectersLeaveKeyAlone(cfg) && Clean(d.rw)
    ensures Clean(SdWriteHeader(cfg, d, status).rw)
  {
    var headers := d.rw.rw.headers;
    var sendData := Get(headers, HEADER_KEY);
    var e := EpHeaders(d.rw, headers - {HEADER_KEY});
    EpHeaderKeepsClean(cfg, e, status);
    if d.status == 0 && status == 200 && sendData != "" && cfg.inject(sendData).Some? {
      InjectKeepsClean(cfg, EpHeaders(e, (headers - {HEADER_KEY})["X-Accel-Buffering" := "no"]), 0,
                       cfg.inject(sendData).value);
    }
    hide EpWriteHeader, InjectOps, Clean;
  }

  /** A body write adds a head only where none can be missing. */
  predicate SdHeaded(d: Sd) { d.status != 0 ==> d.hijacked || d.rw.status != 0 }

  lemma SdStepsKeepClean(cfg: Config, d: Sd, status: Status, data: Bytes)
    requires InjectersLeaveKeyAlone(cfg) && Clean(d.rw) && SdHeaded(d)
    ensures Clean(SdWriteHeader(cfg, d, status).rw) && SdHeaded(SdWriteHeader(cfg, d, status))
    ensures Clean(SdWrite(cfg, d, data).rw) && SdHeaded(SdWrite(cfg, d, data))
  {
    SdHeaderKeepsClean(cfg, d, status);
    SdHeaderKeepsClean(cfg, d, 200);
  }

  lemma {:induction false} FileKeepsClean(cfg: Config, d: Sd, ops: seq<Op>)
    requires InjectersLeaveKeyAlone(cfg) && Clean(d.rw) && SdHeaded(d)
    ensures Clean(FileOps(cfg, d, ops).rw) && SdHeaded(FileOps(cfg, d, ops))
    decreases |ops|
  {
    if ops != [] {
      match ops[0] {
        case SetHeader(k, v) => FileKeepsClean(cfg, SdHeaders(d, d.rw.rw.headers[k := v]), ops[1..]);
        case DelHeader(k) => FileKeepsClean(cfg, SdHeaders(d, d.rw.rw.headers - {k}), ops[1..]);
        case WriteHeader(s) =>
          SdStepsKeepClean(cfg, d, s, []);
          FileKeepsClean(cfg, SdWriteHeader(cfg, d, s), ops[1..]);
        case Write(data) =>
          SdStepsKeepClean(cfg, d, 200, data);
          FileKeepsClean(cfg, SdWrite(cfg, d, data), ops[1..]);
      }
    }
  }

  ghost predicate ChainClean(d: Sd) { Clean(d.rw) && SdHeaded(d) }

  lemma SfStepsKeepClean(cfg: Config, f: Sf, status: Status, data: Bytes)
    requires InjectersLeaveKeyAlone(cfg) && ChainClean(f.rw)
    ensures ChainClean(SfWriteHeader(cfg, f, status).rw) && ChainClean(SfWrite(cfg, f, data).rw)
  {
    SfHeaderKeepsClean(cfg, f, status);
    SfHeaderKeepsClean(cfg, f, 200);
    SdStepsKeepClean(cfg, SfWriteHeader(cfg, f, 200).rw, 200, data);
  }

  lemma SfHeaderKeepsClean(cfg: Config, f: Sf, status: Status)
    requires InjectersLeaveKeyAlone(cfg) && ChainClean(f.rw)
    ensures ChainClean(SfWriteHeader(cfg, f, status).rw)
  {
    var headers := f.rw.rw.rw.headers;
    SdStepsKeepClean(cfg, f.rw, status, []);
    FileKeepsClean(cfg, SdHeaders(f.rw, (headers - {SEND_FILE})["X-Accel-Buffering" := "no"]),
                   cfg.file(Get(headers, SEND_FILE)));
  }

  lemma BlHeaderKeepsClean(cfg: Config, b: Bl, status: Status)
    requires InjectersLeaveKeyAlone(cfg) && ChainClean(b.rw.rw)
    ensures ChainClean(BlWriteHeader(cfg, b, status).rw.rw)
  {
    SfStepsKeepClean(cfg, b.rw, status, []);
    var f := SfHeaders(b.rw, HeadersOf(b) - {CONTENT_LENGTH});
    var f1 := SfHeaders(f, f.rw.rw.rw.headers[CONTENT_TYPE := "text/plain; charset=utf-8"][
                "X-Content-Type-Options" := "nosniff"]);
    SfStepsKeepClean(cfg, f1, 500, []);
    SfStepsKeepClean(cfg, SfWriteHeader(cfg, f1, 500), 200, cfg.errorText);
  }

  lemma {:induction false} HandlerKeepsClean(cfg: Config, b: Bl, ops: seq<Op>)
    requires InjectersLeaveKeyAlone(cfg) && ChainClean(b.rw.rw)
    ensures ChainClean(HandlerOps(cfg, b, ops).rw.rw)
    decreases |ops|
  {
    if ops != [] {
      var op := ops[0];
      if op.WriteHeader? {
        BlHeaderKeepsClean(cfg, b, op.status);
      } else if op.Write? {
        BlHeaderKeepsClean(cfg, b, 200);
        SfStepsKeepClean(cfg, BlWriteHeader(cfg, b, 200).rw, 200, op.data);
      }
      HandlerKeepsClean(cfg, HandlerOp(cfg, b, op), ops[1..]);
    }
  }

  /**
   When the response head goes out the Send-Data header is gone, unless an injecter
   sets it; only an injecter that sends nothing at all leaves the head to the end: to the
   flush of ErrorPages, or to the server where there are no error pages. Either way it
   is a 200 with the header map as the handler and the flushes have left it.
   */
  lemma SendDataHeaderIsGone(cfg: Config, h: Headers, ops: seq<Op>)
    requires InjectersLeaveKeyAlone(cfg)
    ensures var b := BeforeLastFlush(cfg, h, ops);
            && (forall head | head in Client(b).heads :: HEADER_KEY !in head.headers)
            && (Client(b).heads != [] ==> Client(Respond(cfg, h, ops)).heads == Client(b).heads)
            && (Client(b).heads == [] ==>
                  && b.rw.rw.hijacked && Client(b).body == []
                  && Client(Respond(cfg, h, ops)).heads == [Head(200, HeadersOf(b))])
  {
    HandlerKeepsClean(cfg, Initial(h), ops);
    var b0 := HandlerOps(cfg, Initial(h), ops);
    BlHeaderKeepsClean(cfg, b0, 200);
    var b := BlWriteHeader(cfg, b0, 200);
    SfHeaderKeepsClean(cfg, b.rw, 200);
    SdStepsKeepClean(cfg, b.rw.rw, 200, []);
    BlockFlushSends(cfg, h, ops);
    if b.rw.hijacked && SdFresh(b.rw.rw) {
      SdHeaderSends(cfg, b.rw.rw, 200);
    }
  }

  /** No injecter that a header value can call is silent. */
  ghost predicate InjectersSpeak(cfg: Config) {
    forall x | x != "" && cfg.inject(x).Some? :: !Silent(cfg.inject(x).value)
  }

  ghost predicate NoHeadHasKey(cfg: Config) {
    forall h, ops, head | head in Client(Respond(cfg, h, ops)).heads :: HEADER_KEY !in head.headers
  }

  /** A silent script changes the headers only. */
  lemma {:induction false} SilentOnlyHeaders(cfg: Config, e: Ep, ops: seq<Op>)
    requires Silent(ops)
    ensures InjectOps(cfg, e, 0, ops) == EpHeaders(e, InjectOps(cfg, e, 0, ops).rw.headers)
    decreases |ops|
  {
    if ops != [] {
      assert ops[0] in ops && forall op | op in ops[1..] :: op in ops;
      match ops[0] {
        case SetHeader(k, v) => SilentOnlyHeaders(cfg, EpHeaders(e, e.rw.headers[k := v]), ops[1..]);
        case DelHeader(k) => SilentOnlyHeaders(cfg, EpHeaders(e, e.rw.headers - {k}), ops[1..]);
      }
    }
  }

  /** The chain after a 200 whose Send-Data header has called a silent injecter. */
  predicate Unsent(b: Bl) {
    && b.status == b.rw.status == b.rw.rw.status == 200 && b.rw.rw.rw.status == 0
    && !b.hijacked && !b.rw.hijacked && b.rw.rw.hijacked && !b.rw.rw.rw.hijacked
    && Client(b).heads == [] && Client(b).body == []
  }

  lemma SilentInjecterHoldsBack(cfg: Config, x: string)
    requires x != "" && cfg.inject(x).Some? && Silent(cfg.inject(x).value) && !cfg.isInternal("")
    ensures Unsent(BlWriteHeader(cfg, Initial(map[HEADER_KEY := x]), 200))
  {
    var h := map[HEADER_KEY := x];
    var e := Initial(h).rw.rw.rw;
    var bare: Headers := (h - {HEADER_KEY})["X-Accel-Buffering" := "no"];
    SilentOnlyHeaders(cfg, EpHeaders(EpHeaders(e, h - {HEADER_KEY}), bare), cfg.inject(x).value);
    assert Get(h, SEND_FILE) == "" && Get(h, CONTENT_TYPE) == "" && Get(h, HEADER_KEY) == x;
  }

  /** What the handler sets afterwards goes out with the head, at the end. */
  lemma UnsentTakesHeader(cfg: Config, b: Bl, key: string, value: string)
    requires Unsent(b)
    ensures Client(Flushes(cfg, HandlerOp(cfg, b, SetHeader(key, value)))).heads
            == [Head(200, HeadersOf(b)[key := value])]
  {
  }

  lemma SilentInjecterLeavesTheHead(cfg: Config, x: string, key: string, value: string)
    requires x != "" && cfg.inject(x).Some? && Silent(cfg.inject(x).value) && !cfg.isInternal("")
    ensures var ops := [WriteHeader(200), SetHeader(key, value)];
            var c := Client(Respond(cfg, map[HEADER_KEY := x], ops));
            |c.heads| == 1 && c.heads[0].status == 200
            && Get(c.heads[0].headers, key) == value && key in c.heads[0].headers
  {
    var o1, o2 := WriteHeader(200), SetHeader(key, value);
    var b0 := Initial(map[HEADER_KEY := x]);
    var b1 := HandlerOp(cfg, b0, o1);
    SilentInjecterHoldsBack(cfg, x);
    UnsentTakesHeader(cfg, b1, key, value);
    assert [o1, o2][1..] == [o2] && [o2][1..] == [];
    assert HandlerOps(cfg, b1, [o2]) == HandlerOp(cfg, b1, o2);
    assert HandlerOps(cfg, b0, [o1, o2]) == HandlerOp(cfg, b1, o2);
  }

  /** Injecters that speak leave nothing to the end. */
  lemma SpeakingInjectersSendTheHead(cfg: Config, h: Headers, ops: seq<Op>)
    requires InjectersSpeak(cfg)
    ensures Client(Respond(cfg, h, ops)).heads == Client(BeforeLastFlush(cfg, h, ops)).heads
  {
    BlockFlushSends(cfg, h, ops);
    var b := BlWriteHeader(cfg, HandlerOps(cfg, Initial(h), ops), 200);
    var d := b.rw.rw;
    if b.rw.hijacked && SdFresh(d) {
      SdHeaderSends(cfg, d, 200);
    }
    var d' := SdWriteHeader(cfg, d, 200);
    assert exists data :: SdSent(cfg, d', data) by {
      if b.rw.hijacked {
        assert SdSent(cfg, d', Writes(cfg.file(b.rw.called))) || SdSent(cfg, d', []);
      } else {
        assert SdSent(cfg, d', if b.hijacked then [cfg.errorText] else Writes(ops));
      }
    }
    assert d'.rw.status != 0;
  }

  /**
   The exact condition, for routes with error pages and without: the Send-Data header is
   gone from every head that any handler can make the client get if and only if every
   injecter that a header can call writes a status or a body.
   */
  lemma KeyIsGoneIff(cfg: Config)
    requires InjectersLeaveKeyAlone(cfg) && !cfg.isInternal("")
    ensures NoHeadHasKey(cfg) <==> InjectersSpeak(cfg)
  {
    if InjectersSpeak(cfg) {
      forall h, ops, head | head in Client(Respond(cfg, h, ops)).heads ensures HEADER_KEY !in head.headers {
        SpeakingInjectersSendTheHead(cfg, h, ops);
        SendDataHeaderIsGone(cfg, h, ops);
      }
    } else {
      var x :| x != "" && cfg.inject(x).Some? && Silent(cfg.inject(x).value);
      SilentInjecterLeavesTheHead(cfg, x, HEADER_KEY, "again");
      var h, ops := map[HEADER_KEY := x], [WriteHeader(200), SetHeader(HEADER_KEY, "again")];
      assert Client(Respond(cfg, h, ops)).heads[0] in Client(Respond(cfg, h, ops)).heads;
    }
  }

  // ---------------------------------------------------------------------------
  // The internal content type
  // ---------------------------------------------------------------------------

  predicate OnlyHeaders(ops: seq<Op>) { forall op | op in ops :: op.SetHeader? || op.DelHeader? }

  function HeadersAfter(h: Headers, ops: seq<Op>): Headers
    decreases |ops|
  {
    if ops == [] then h
    else match ops[0]
      case SetHeader(k, v) => HeadersAfter(h[k := v], ops[1..])
      case DelHeader(k) => HeadersAfter(h - {k}, ops[1..])
      case _ => HeadersAfter(h, ops[1..])
  }

  lemma {:induction false} HeaderOpsOnly(cfg: Config, h: Headers, pre: seq<Op>, rest: seq<Op>)
    requires OnlyHeaders(pre)
    ensures HandlerOps(cfg, Initial(h), pre + rest) == HandlerOps(cfg, Initial(HeadersAfter(h, pre)), rest)
    decreases |pre|
  {
    if pre == [] {
      assert [] + rest == rest;
    } else {
      assert pre[0] in pre && (pre + rest)[1..] == pre[1..] + rest;
      assert forall op | op in pre[1..] :: op in pre;
      match pre[0] {
        case SetHeader(k, v) => HeaderOpsOnly(cfg, h[k := v], pre[1..], rest);
        case DelHeader(k) => HeaderOpsOnly(cfg, h - {k}, pre[1..], rest);
      }
    }
  }

  /** Block has answered: the fixed 500 or the error page for it. */
  predicate Blocked(cfg: Config, b: Bl) {
    && b.hijacked && b.status == b.rw.status == b.rw.rw.status == b.rw.rw.rw.status == 500
    && !b.rw.hijacked && !b.rw.rw.hijacked
    && EpSent(cfg, b.rw.rw.rw, [cfg.errorText])
    && Get(Client(b).heads[0].headers, CONTENT_TYPE)
       == (if b.rw.rw.rw.hijacked then "text/html; charset=utf-8" else "text/plain; charset=utf-8")
  }

  lemma InternalIsBlocked(cfg: Config, h: Headers, status: Status)
    requires cfg.isInternal(Get(h, CONTENT_TYPE))
    ensures Blocked(cfg, BlWriteHeader(cfg, Initial(h), status))
  {
    hide InjectOps, FileOps, NoCacheHeaders;
    assert [] + [cfg.errorText] == [cfg.errorText];
  }

  lemma {:induction false} BlockedStays(cfg: Config, b: Bl, ops: seq<Op>)
    requires Blocked(cfg, b)
    ensures Blocked(cfg, HandlerOps(cfg, b, ops))
    decreases |ops|
  {
    if ops != [] {
      BlockedStays(cfg, HandlerOp(cfg, b, ops[0]), ops[1..]);
    }
  }

  /**
   A response whose content type is the internal one when its head is due (the first
   WriteHeader or Write, or the end) always comes out as a 500 with the fixed text,
   or with the static page for 500.
   */
  lemma InternalTypeNeverLeaks(cfg: Config, h: Headers, pre: seq<Op>, rest: seq<Op>)
    requires OnlyHeaders(pre) && (rest == [] || rest[0].WriteHeader? || rest[0].Write?)
    requires cfg.isInternal(Get(HeadersAfter(h, pre), CONTENT_TYPE))
    ensures var c := Client(Respond(cfg, h, pre + rest));
            && |c.heads| == 1 && c.heads[0].status == 500
            && if c.body == [cfg.errorText] && !Respond(cfg, h, pre + rest).rw.rw.rw.hijacked
               then Get(c.heads[0].headers, CONTENT_TYPE) == "text/plain; charset=utf-8"
               else
                 && cfg.errorPages && cfg.page(500).Some? && c.body == [cfg.page(500).value]
                 && Get(c.heads[0].headers, CONTENT_TYPE) == "text/html; charset=utf-8"
  {
    var h' := HeadersAfter(h, pre);
    var b := Initial(h');
    HeaderOpsOnly(cfg, h, pre, rest);
    InternalIsBlocked(cfg, h', if rest != [] && rest[0].WriteHeader? then rest[0].status else 200);
    if rest != [] {
      BlockedStays(cfg, HandlerOp(cfg, b, rest[0]), rest[1..]);
    }
  }

  // ---------------------------------------------------------------------------
  // Who answers
  // ---------------------------------------------------------------------------

  /** The header calls before the response head is due. */
  function Before(ops: seq<Op>): (pre: seq<Op>)
    ensures pre <= ops
  {
    if ops == [] || ops[0].WriteHeader? || ops[0].Write? then [] else [ops[0]] + Before(ops[1..])
  }

  /** The header map when the head is due: at the first WriteHeader or Write, or at the end. */
  function Due(h: Headers, ops: seq<Op>): Headers { HeadersAfter(h, Before(ops)) }

  function DueStatus(ops: seq<Op>): Status {
    var rest := ops[|Before(ops)|..];
    if rest != [] && rest[0].WriteHeader? then rest[0].status else 200
  }

  lemma {:induction false} BeforeSplits(ops: seq<Op>)
    ensures Before(ops) <= ops && OnlyHeaders(Before(ops))
    ensures var rest := ops[|Before(ops)|..];
            (rest == [] || rest[0].WriteHeader? || rest[0].Write?) && ops == Before(ops) + rest
  {
    if ops != [] && !ops[0].WriteHeader? && !ops[0].Write? {
      BeforeSplits(ops[1..]);
      assert ops == [ops[0]] + ops[1..];
      assert ops[|Before(ops)|..] == ops[1..][|Before(ops[1..])|..];
    }
  }

  /** The chain once Block has seen the head. */
  function AtDue(cfg: Config, h: Headers, ops: seq<Op>): Bl {
    BlWriteHeader(cfg, Initial(Due(h, ops)), DueStatus(ops))
  }

  /** Block and SendFile have decided, and so has SendData unless a file holds it back. */
  predicate Decided(b: Bl, b': Bl) {
    && b.status != 0 && b.rw.status != 0 && b'.status == b.status && b'.hijacked == b.hijacked
    && b'.rw.status == b.rw.status && b'.rw.hijacked == b.rw.hijacked && b'.rw.called == b.rw.called
    && (b.rw.rw.status != 0 ==>
          && b'.rw.rw.status == b.rw.rw.status && b'.rw.rw.hijacked == b.rw.rw.hijacked
          && b'.rw.rw.called == b.rw.rw.called)
  }

  lemma {:induction false} StaysDecided(cfg: Config, b: Bl, ops: seq<Op>)
    requires b.status != 0 && b.rw.status != 0
    ensures Decided(b, HandlerOps(cfg, b, ops))
    decreases |ops|
  {
    if ops != [] {
      OpStaysDecided(cfg, b, ops[0]);
      StaysDecided(cfg, HandlerOp(cfg, b, ops[0]), ops[1..]);
    }
  }

  lemma OpStaysDecided(cfg: Config, b: Bl, op: Op)
    requires b.status != 0 && b.rw.status != 0
    ensures Decided(b, HandlerOp(cfg, b, op))
  {
    hide EpWriteHeader, InjectOps, FileOps, Fail500, EpWrite;
  }

  lemma AtDueIsFirst(cfg: Config, h: Headers, ops: seq<Op>)
    ensures var b := BlWriteHeader(cfg, HandlerOps(cfg, Initial(h), ops), 200);
            AtDue(cfg, h, ops).status != 0 && AtDue(cfg, h, ops).rw.status != 0 && Decided(AtDue(cfg, h, ops), b)
  {
    BeforeSplits(ops);
    var rest := ops[|Before(ops)|..];
    HeaderOpsOnly(cfg, h, Before(ops), rest);
    var first := AtDue(cfg, h, ops);
    assert first.status != 0 && first.rw.status != 0 by {
      hide SdWriteHeader, FileOps, SdWrite;
    }
    if rest != [] {
      FirstOp(cfg, Initial(Due(h, ops)), rest[0]);
      StaysDecided(cfg, HandlerOp(cfg, Initial(Due(h, ops)), rest[0]), rest[1..]);
    }
  }

  lemma FirstOp(cfg: Config, b: Bl, op: Op)
    requires BlFresh(b) && (op.WriteHeader? || op.Write?)
    ensures var first := BlWriteHeader(cfg, b, if op.WriteHeader? then op.status else 200);
            first.status != 0 && first.rw.status != 0 && Decided(first, HandlerOp(cfg, b, op))
  {
    hide EpWriteHeader, InjectOps, FileOps, EpWrite;
  }

  /**
   Who answers is decided by the headers and the status when the head is due: Block for
   the internal content type, then the file that X-Sendfile names and the injecter that
   Send-Data calls, both for a 200 only, then the handler itself.
   */
  lemma WhoAnswers(cfg: Config, h: Headers, ops: seq<Op>)
    ensures var b := Respond(cfg, h, ops);
            var due, status := Due(h, ops), DueStatus(ops);
            var name, x := Get(due, SEND_FILE), Get(due, HEADER_KEY);
            && (b.hijacked <==> cfg.isInternal(Get(due, CONTENT_TYPE)))
            && (b.rw.hijacked <==> !b.hijacked && status == 200 && name != "")
            && (b.rw.hijacked ==> b.rw.called == name)
            && (!b.rw.hijacked ==>
                  (b.rw.rw.hijacked <==> !b.hijacked && status == 200 && x != "" && cfg.inject(x).Some?))
            && (!b.rw.hijacked && b.rw.rw.hijacked ==> b.rw.rw.called == x)
  {
    AtDueIsFirst(cfg, h, ops);
    AtDueDecides(cfg, Due(h, ops), DueStatus(ops));
    FlushesKeepDecision(cfg, HandlerOps(cfg, Initial(h), ops));
    hide BlWriteHeader, HandlerOps, Flushes;
  }

  lemma FlushesKeepDecision(cfg: Config, b: Bl)
    ensures var b1 := BlWriteHeader(cfg, b, 200);
            b1.status != 0 && b1.rw.status != 0 ==> Decided(b1, Flushes(cfg, b))
  {
    hide EpWriteHeader, InjectOps, FileOps, Fail500, BlWriteHeader;
  }

  lemma AtDueDecides(cfg: Config, due: Headers, status: Status)
    ensures var b := BlWriteHeader(cfg, Initial(due), status);
            var name, x := Get(due, SEND_FILE), Get(due, HEADER_KEY);
            && (b.hijacked <==> cfg.isInternal(Get(due, CONTENT_TYPE)))
            && (b.rw.hijacked <==> !b.hijacked && status == 200 && name != "")
            && (b.rw.hijacked ==> b.rw.called == name)
            && (!b.rw.hijacked ==>
                  && b.rw.rw.status != 0
                  && (b.rw.rw.hijacked <==> !b.hijacked && status == 200 && x != "" && cfg.inject(x).Some?)
                  && (b.rw.rw.hijacked ==> b.rw.rw.called == x))
  {
    hide EpWriteHeader, InjectOps, FileOps, EpWrite;
  }
}
