/**
 The response head that a client gets: its status and headers for every outcome of the
 chain of module ResponseChain, and what it can never carry.
 */
module ResponseHead {
  import opened Wrappers
  import opened Bytes
  import opened ResponseChain

  // ---------------------------------------------------------------------------
  // The head, layer by layer
  // ---------------------------------------------------------------------------

  /** The head of a script that is started with the header map h. */
  function FirstHead(h: Headers, script: seq<Op>): Head { Head(DueStatus(script), Due(h, script)) }

  /** What SendData passes on of a head, or what the injecter makes instead. */
  function SendDataHead(cfg: Config, head: Head): Head {
    var bare := head.headers - {HEADER_KEY};
    var x := Get(head.headers, HEADER_KEY);
    if head.status == 200 && x != "" && cfg.inject(x).Some? then
      FirstHead(bare["X-Accel-Buffering" := "no"], cfg.inject(x).value)
    else Head(head.status, bare)
  }

  function SendFileHead(cfg: Config, head: Head): Head {
    var name := Get(head.headers, SEND_FILE);
    if head.status == 200 && name != "" then
      SendDataHead(cfg, FirstHead((head.headers - {SEND_FILE})["X-Accel-Buffering" := "no"], cfg.file(name)))
    else SendDataHead(cfg, head)
  }

  /** What reaches ErrorPages of a head that the handler is due to make. */
  function Forwarded(cfg: Config, head: Head): Head {
    if cfg.isInternal(Get(head.headers, CONTENT_TYPE)) then
      SendFileHead(cfg, Head(500, (head.headers - {CONTENT_LENGTH})[CONTENT_TYPE := "text/plain; charset=utf-8"][
                                    "X-Content-Type-Options" := "nosniff"]))
    else SendFileHead(cfg, head)
  }

  predicate PageDue(cfg: Config, head: Head) { cfg.errorPages && HasPage(cfg, head.headers, head.status) }

  function Paged(cfg: Config, head: Head): Head {
    if PageDue(cfg, head) then Head(head.status, PageHeaders(head.headers, cfg.page(head.status).value)) else head
  }

  /** ErrorPages has sent exactly this head, or its page. */
  predicate HeadIs(cfg: Config, e: Ep, head: Head) {
    e.status != 0 && e.rw.heads == [Paged(cfg, head)] && (e.hijacked <==> PageDue(cfg, head))
  }

  // ---------------------------------------------------------------------------
  // Scripts
  // ---------------------------------------------------------------------------

  lemma EpHeadIs(cfg: Config, e: Ep, status: Status)
    requires EpFresh(e)
    ensures HeadIs(cfg, EpWriteHeader(cfg, e, status), Head(status, e.rw.headers))
  {
  }

  /** A first body before any head goes out unaltered, under a 200 that fixes the status of ErrorPages. */
  lemma FirstBodyMakesTheHead(cfg: Config, e: Ep, data: Bytes)
    requires EpFresh(e)
    ensures EpWrite(cfg, e, data).rw == Rec(e.rw.headers, [Head(200, e.rw.headers)], [data])
    ensures !EpWrite(cfg, e, data).hijacked && (cfg.errorPages ==> EpWrite(cfg, e, data).status == 200)
  {
  }

  lemma EpWriteKeepsHead(cfg: Config, e: Ep, data: Bytes, head: Head)
    requires HeadIs(cfg, e, head)
    ensures HeadIs(cfg, EpWrite(cfg, e, data), head)
  {
  }

  /** One call of a script that is silent so far. */
  lemma FirstHeadStep(h: Headers, ops: seq<Op>)
    requires ops != []
    ensures ops[0].SetHeader? ==> FirstHead(h, ops) == FirstHead(h[ops[0].key := ops[0].value], ops[1..])
    ensures ops[0].DelHeader? ==> FirstHead(h, ops) == FirstHead(h - {ops[0].key}, ops[1..])
    ensures ops[0].WriteHeader? ==> FirstHead(h, ops) == Head(ops[0].status, h)
    ensures ops[0].Write? ==> FirstHead(h, ops) == Head(200, h)
  {
    if ops[0].SetHeader? || ops[0].DelHeader? {
      assert Before(ops)[1..] == Before(ops[1..]);
      assert ops[|Before(ops)|..] == ops[1..][|Before(ops[1..])|..];
    } else {
      assert ops[|Before(ops)|..] == ops;
    }
  }

  lemma {:induction false} InjectKeepsHead(cfg: Config, e: Ep, counted: int, ops: seq<Op>, head: Head)
    requires counted != 0 && HeadIs(cfg, e, head)
    ensures HeadIs(cfg, InjectOps(cfg, e, counted, ops), head)
    decreases |ops|
  {
    if ops != [] {
      match ops[0] {
        case SetHeader(k, v) => InjectKeepsHead(cfg, EpHeaders(e, e.rw.headers[k := v]), counted, ops[1..], head);
        case DelHeader(k) => InjectKeepsHead(cfg, EpHeaders(e, e.rw.headers - {k}), counted, ops[1..], head);
        case WriteHeader(_) => InjectKeepsHead(cfg, e, counted, ops[1..], head);
        case Write(data) =>
          EpWriteKeepsHead(cfg, e, data, head);
          InjectKeepsHead(cfg, EpWrite(cfg, e, data), counted, ops[1..], head);
      }
    }
  }

  lemma {:induction false} InjectHeadIs(cfg: Config, e: Ep, ops: seq<Op>)
    requires EpFresh(e) && !Silent(ops)
    ensures HeadIs(cfg, InjectOps(cfg, e, 0, ops), FirstHead(e.rw.headers, ops))
    decreases |ops|
  {
    hide HeadIs, EpWriteHeader, EpWrite, FirstHead, Silent;
    if ops == [] {
      SilentNone();
    } else {
      SilentStep(ops);
      FirstHeadStep(e.rw.headers, ops);
      var head := FirstHead(e.rw.headers, ops);
      match ops[0] {
        case SetHeader(k, v) => InjectHeadIs(cfg, EpHeaders(e, e.rw.headers[k := v]), ops[1..]);
        case DelHeader(k) => InjectHeadIs(cfg, EpHeaders(e, e.rw.headers - {k}), ops[1..]);
        case WriteHeader(s) =>
          EpHeadIs(cfg, e, s);
          InjectKeepsHead(cfg, EpWriteHeader(cfg, e, s), s, ops[1..], head);
        case Write(data) =>
          EpHeadIs(cfg, e, 200);
          EpWriteKeepsHead(cfg, EpWriteHeader(cfg, e, 200), data, head);
          InjectKeepsHead(cfg, EpWrite(cfg, EpWriteHeader(cfg, e, 200), data), 200, ops[1..], head);
      }
    }
  }

  // ---------------------------------------------------------------------------
  // SendData and files
  // ---------------------------------------------------------------------------

  /** SendData has decided, and this head has been forwarded. */
  predicate SdHeadIs(cfg: Config, d: Sd, head: Head) { d.status != 0 && HeadIs(cfg, d.rw, head) }

  lemma SdMakesHead(cfg: Config, d: Sd, status: Status)
    requires SdFresh(d) && InjectersSpeak(cfg)
    ensures SdHeadIs(cfg, SdWriteHeader(cfg, d, status), SendDataHead(cfg, Head(status, d.rw.rw.headers)))
  {
    hide HeadIs, EpWriteHeader, FirstHead, Silent;
    var headers := d.rw.rw.headers;
    var x := Get(headers, HEADER_KEY);
    var e := EpHeaders(d.rw, headers - {HEADER_KEY});
    EpHeadIs(cfg, e, status);
    if status == 200 && x != "" && cfg.inject(x).Some? {
      InjectHeadIs(cfg, EpHeaders(e, e.rw.headers["X-Accel-Buffering" := "no"]), cfg.inject(x).value);
    }
  }

  lemma SdKeepsHead(cfg: Config, d: Sd, status: Status, data: Bytes, head: Head)
    requires SdHeadIs(cfg, d, head)
    ensures SdWriteHeader(cfg, d, status) == d
    ensures SdHeadIs(cfg, SdWrite(cfg, d, data), head)
  {
    hide HeadIs;
    EpWriteKeepsHead(cfg, d.rw, data, head);
  }

  lemma {:induction false} FileKeepsHead(cfg: Config, d: Sd, ops: seq<Op>, head: Head)
    requires SdHeadIs(cfg, d, head)
    ensures SdHeadIs(cfg, FileOps(cfg, d, ops), head)
    decreases |ops|
  {
    hide SdWrite, SdWriteHeader, Paged;
    if ops != [] {
      match ops[0] {
        case SetHeader(k, v) => FileKeepsHead(cfg, SdHeaders(d, d.rw.rw.headers[k := v]), ops[1..], head);
        case DelHeader(k) => FileKeepsHead(cfg, SdHeaders(d, d.rw.rw.headers - {k}), ops[1..], head);
        case WriteHeader(s) =>
          SdKeepsHead(cfg, d, s, [], head);
          FileKeepsHead(cfg, d, ops[1..], head);
        case Write(data) =>
          SdKeepsHead(cfg, d, 200, data, head);
          FileKeepsHead(cfg, SdWrite(cfg, d, data), ops[1..], head);
      }
    }
  }

  lemma FirstWriteIsHead(cfg: Config, d: Sd, data: Bytes)
    requires SdFresh(d) && InjectersSpeak(cfg)
    ensures SdHeadIs(cfg, SdWrite(cfg, d, data), SendDataHead(cfg, Head(200, d.rw.rw.headers)))
  {
    SdMakesHead(cfg, d, 200);
    hide SdWriteHeader, SendDataHead, HeadIs, InjectersSpeak;
    var head := SendDataHead(cfg, Head(200, d.rw.rw.headers));
    var d' := SdWriteHeader(cfg, d, 200);
    SdKeepsHead(cfg, d', 200, data, head);
    EpWriteKeepsHead(cfg, d'.rw, data, head);
  }

  lemma {:induction false} FileMakesHead(cfg: Config, d: Sd, ops: seq<Op>)
    requires SdFresh(d) && InjectersSpeak(cfg) && !Silent(ops)
    ensures SdHeadIs(cfg, FileOps(cfg, d, ops), SendDataHead(cfg, FirstHead(d.rw.rw.headers, ops)))
    decreases |ops|
  {
    hide SdHeadIs, SdWriteHeader, SdWrite, SendDataHead, FirstHead, Silent, InjectersSpeak;
    if ops == [] {
      SilentNone();
    } else {
      SilentStep(ops);
      FirstHeadStep(d.rw.rw.headers, ops);
      var head := SendDataHead(cfg, FirstHead(d.rw.rw.headers, ops));
      match ops[0] {
        case SetHeader(k, v) => FileMakesHead(cfg, SdHeaders(d, d.rw.rw.headers[k := v]), ops[1..]);
        case DelHeader(k) => FileMakesHead(cfg, SdHeaders(d, d.rw.rw.headers - {k}), ops[1..]);
        case WriteHeader(s) =>
          SdMakesHead(cfg, d, s);
          FileKeepsHead(cfg, SdWriteHeader(cfg, d, s), ops[1..], head);
        case Write(data) =>
          FirstWriteIsHead(cfg, d, data);
          FileKeepsHead(cfg, SdWrite(cfg, d, data), ops[1..], head);
      }
    }
  }

  // ---------------------------------------------------------------------------
  // SendFile, Block and the handler
  // ---------------------------------------------------------------------------

  /** No silent script can hold a head back until the end. */
  ghost predicate NoSilence(cfg: Config) {
    InjectersSpeak(cfg) && forall name | name != "" :: !Silent(cfg.file(name))
  }

  predicate SfHeadIs(cfg: Config, f: Sf, head: Head) { f.status != 0 && SdHeadIs(cfg, f.rw, head) }

  lemma SfMakesHead(cfg: Config, f: Sf, status: Status)
    requires SfFresh(f) && NoSilence(cfg)
    ensures SfHeadIs(cfg, SfWriteHeader(cfg, f, status), SendFileHead(cfg, Head(status, f.rw.rw.rw.headers)))
  {
    hide SdHeadIs, SendDataHead, FirstHead, FileOps, SdWriteHeader, InjectersSpeak, Silent;
    var headers := f.rw.rw.rw.headers;
    var name := Get(headers, SEND_FILE);
    if status == 200 && name != "" {
      FileMakesHead(cfg, SdHeaders(f.rw, (headers - {SEND_FILE})["X-Accel-Buffering" := "no"]), cfg.file(name));
    } else {
      SdMakesHead(cfg, f.rw, status);
    }
  }

  /** Everything has been decided, and this head has been forwarded. */
  predicate Settled(cfg: Config, b: Bl, head: Head) { b.status != 0 && SfHeadIs(cfg, b.rw, head) }

  lemma SfKeepsHead(cfg: Config, f: Sf, data: Bytes, head: Head)
    requires SfHeadIs(cfg, f, head)
    ensures SfHeadIs(cfg, SfWrite(cfg, f, data), head)
  {
    hide HeadIs, SdWrite, SdWriteHeader, FileOps;
    SdKeepsHead(cfg, f.rw, 200, data, head);
  }

  /** A body without a head before it makes SendFile decide as for a 200. */
  lemma FirstBodyDecides(cfg: Config, f: Sf, data: Bytes)
    requires SfFresh(f) && NoSilence(cfg)
    ensures SfHeadIs(cfg, SfWrite(cfg, f, data), SendFileHead(cfg, Head(200, f.rw.rw.rw.headers)))
  {
    SfMakesHead(cfg, f, 200);
    hide SfWriteHeader, SendFileHead, SdHeadIs, HeadIs, NoSilence;
    var head := SendFileHead(cfg, Head(200, f.rw.rw.rw.headers));
    var f' := SfWriteHeader(cfg, f, 200);
    FirstWriteKeepsHead(cfg, f', data, head);
  }

  lemma FirstWriteKeepsHead(cfg: Config, f: Sf, data: Bytes, head: Head)
    requires SfHeadIs(cfg, f, head)
    ensures SfHeadIs(cfg, f.(rw := SdWrite(cfg, f.rw, data)), head)
  {
    SdKeepsHead(cfg, f.rw, 200, data, head);
  }

  lemma BlMakesHead(cfg: Config, due: Headers, status: Status)
    requires NoSilence(cfg)
    ensures Settled(cfg, BlWriteHeader(cfg, Initial(due), status), Forwarded(cfg, Head(status, due)))
  {
    hide SfHeadIs, SendFileHead, SfWriteHeader, SfWrite, NoSilence;
    var b := Initial(due);
    if cfg.isInternal(Get(due, CONTENT_TYPE)) {
      var h := (due - {CONTENT_LENGTH})[CONTENT_TYPE := "text/plain; charset=utf-8"][
                 "X-Content-Type-Options" := "nosniff"];
      var f := SfHeaders(SfHeaders(b.rw, due - {CONTENT_LENGTH}), h);
      SfMakesHead(cfg, f, 500);
      SfKeepsHead(cfg, SfWriteHeader(cfg, f, 500), cfg.errorText, SendFileHead(cfg, Head(500, h)));
    } else {
      SfMakesHead(cfg, b.rw, status);
    }
  }

  lemma OpKeepsHead(cfg: Config, b: Bl, op: Op, head: Head)
    requires Settled(cfg, b, head)
    ensures Settled(cfg, HandlerOp(cfg, b, op), head)
  {
    hide Paged, SfWrite, SfWriteHeader, Fail500;
    if op.Write? {
      SfKeepsHead(cfg, b.rw, op.data, head);
    }
  }

  lemma {:induction false} OpsKeepHead(cfg: Config, b: Bl, ops: seq<Op>, head: Head)
    requires Settled(cfg, b, head)
    ensures Settled(cfg, HandlerOps(cfg, b, ops), head)
    decreases |ops|
  {
    if ops != [] {
      OpKeepsHead(cfg, b, ops[0], head);
      hide Settled, HandlerOp;
      OpsKeepHead(cfg, HandlerOp(cfg, b, ops[0]), ops[1..], head);
    }
  }

  lemma FlushesKeepHead(cfg: Config, b: Bl, head: Head)
    requires Settled(cfg, BlWriteHeader(cfg, b, 200), head)
    ensures HeadIs(cfg, Flushes(cfg, b).rw.rw.rw, head)
  {
    hide BlWriteHeader, Paged;
    var b1 := BlWriteHeader(cfg, b, 200);
    SdKeepsHead(cfg, b1.rw.rw, 200, [], head);
  }

  /** What the first WriteHeader or Write has settled, or the end, is what the client gets. */
  lemma SettledWhenDue(cfg: Config, h: Headers, ops: seq<Op>, head: Head)
    requires Settled(cfg, AtDue(cfg, h, ops), head)
    ensures HeadIs(cfg, Respond(cfg, h, ops).rw.rw.rw, head)
  {
    BeforeSplits(ops);
    var rest := ops[|Before(ops)|..];
    var b := Initial(Due(h, ops));
    HeaderOpsOnly(cfg, h, Before(ops), rest);
    var b' := HandlerOps(cfg, b, rest);
    assert Settled(cfg, BlWriteHeader(cfg, b', 200), head) by {
      hide SfHeadIs;
      if rest != [] {
        FirstOpSettles(cfg, b, rest[0], head);
        OpsKeepHead(cfg, HandlerOp(cfg, b, rest[0]), rest[1..], head);
      }
    }
    FlushesKeepHead(cfg, b', head);
    hide Settled, HeadIs, Flushes, BlWriteHeader, HandlerOps;
  }

  lemma FirstOpSettles(cfg: Config, b: Bl, op: Op, head: Head)
    requires op.WriteHeader? || op.Write?
    requires Settled(cfg, BlWriteHeader(cfg, b, if op.WriteHeader? then op.status else 200), head)
    ensures Settled(cfg, HandlerOp(cfg, b, op), head)
  {
    if op.Write? {
      OpKeepsHead(cfg, BlWriteHeader(cfg, b, 200), op, head);
    }
    hide SfHeadIs, SfWriteHeader, Fail500;
  }

  // ---------------------------------------------------------------------------
  // The head of every response
  // ---------------------------------------------------------------------------

  /**
   If no script is silent the client's head is fixed when the head is due, by the headers
   and the status then: through Block, SendFile and SendData, and with the page where one is
   due. Nothing that the handler does afterwards changes it.
   */
  lemma HeadOfTheResponse(cfg: Config, h: Headers, ops: seq<Op>)
    requires NoSilence(cfg)
    ensures HeadIs(cfg, Respond(cfg, h, ops).rw.rw.rw, Forwarded(cfg, Head(DueStatus(ops), Due(h, ops))))
  {
    BlMakesHead(cfg, Due(h, ops), DueStatus(ops));
    hide Settled, HeadIs, Respond, NoSilence, Forwarded, BlWriteHeader;
    SettledWhenDue(cfg, h, ops, Forwarded(cfg, Head(DueStatus(ops), Due(h, ops))));
  }

  /**
   When an error page is due, exactly: for an error status, a page of that status, and a
   response that neither has X-GitLab-Custom-Error nor is JSON. The page replaces the type
   and the length and forbids caching; it keeps the status and every other header.
   */
  lemma PageIsDueIff(cfg: Config, head: Head)
    ensures PageDue(cfg, head) <==>
              && cfg.errorPages && 400 <= head.status < 600 && cfg.page(head.status).Some?
              && (if "X-GitLab-Custom-Error" in head.headers then head.headers["X-GitLab-Custom-Error"] == "" else true)
              && (if CONTENT_TYPE in head.headers then head.headers[CONTENT_TYPE] != "application/json" else true)
    ensures !PageDue(cfg, head) ==> Paged(cfg, head) == head
    ensures PageDue(cfg, head) ==>
              var paged := Paged(cfg, head);
              && paged.status == head.status
              && Get(paged.headers, "Content-Type") == "text/html; charset=utf-8"
              && Get(paged.headers, "Content-Length") == Decimal(|cfg.page(head.status).value|)
              && Get(paged.headers, "Cache-Control") == "no-cache, no-store, max-age=0, must-revalidate"
              && Get(paged.headers, "Pragma") == "no-cache"
              && Get(paged.headers, "Expires") == "Fri, 01 Jan 1990 00:00:00 GMT"
              && "Transfer-Encoding" !in paged.headers
              && forall k | k !in {"Content-Type", "Content-Length", "Cache-Control", "Pragma", "Expires",
                                   "Transfer-Encoding"} ::
                   (k in paged.headers <==> k in head.headers) && Get(paged.headers, k) == Get(head.headers, k)
  {
  }

  /**
   Who answers and with which head, exactly as the headers and the status have it when the
   head is due, scripts or not: an untouched response keeps its status and all its headers
   but the Send-Data key, or makes room for its error page.
   */
  lemma UntouchedResponse(cfg: Config, h: Headers, ops: seq<Op>)
    requires var b := Respond(cfg, h, ops); !b.hijacked && !b.rw.hijacked && !b.rw.rw.hijacked
    ensures HeadIs(cfg, Respond(cfg, h, ops).rw.rw.rw, Head(DueStatus(ops), Due(h, ops) - {HEADER_KEY}))
  {
    var due, status := Due(h, ops), DueStatus(ops);
    var head := Head(status, due - {HEADER_KEY});
    WhoAnswers(cfg, h, ops);
    var e := EpHeaders(Initial(due).rw.rw.rw, due - {HEADER_KEY});
    EpHeadIs(cfg, e, status);
    assert Settled(cfg, AtDue(cfg, h, ops), head) by {
      hide EpWriteHeader, HeadIs, Due, DueStatus, Respond;
    }
    hide HeadIs, Respond, AtDue;
    SettledWhenDue(cfg, h, ops, head);
  }

  /** Block's answer: the fixed 500 with the type of its text, or the page for it. */
  lemma BlockedResponse(cfg: Config, h: Headers, ops: seq<Op>)
    requires Respond(cfg, h, ops).hijacked
    ensures var headers := (Due(h, ops) - {CONTENT_LENGTH})["Content-Type" := "text/plain; charset=utf-8"][
                             "X-Content-Type-Options" := "nosniff"];
            HeadIs(cfg, Respond(cfg, h, ops).rw.rw.rw, Head(500, headers - {HEADER_KEY}))
  {
    var due := Due(h, ops);
    WhoAnswers(cfg, h, ops);
    var headers := (due - {CONTENT_LENGTH})[CONTENT_TYPE := "text/plain; charset=utf-8"][
                     "X-Content-Type-Options" := "nosniff"];
    var head := Head(500, headers - {HEADER_KEY});
    var f := SfHeaders(SfHeaders(Initial(due).rw, due - {CONTENT_LENGTH}), headers);
    EpHeadIs(cfg, EpHeaders(f.rw.rw, headers - {HEADER_KEY}), 500);
    assert SfHeadIs(cfg, SfWriteHeader(cfg, f, 500), head) by {
      hide EpWriteHeader, HeadIs, Due, DueStatus, Respond;
    }
    hide HeadIs, Respond, SfWriteHeader, SfWrite, Due, DueStatus;
    SfKeepsHead(cfg, SfWriteHeader(cfg, f, 500), cfg.errorText, head);
    assert AtDue(cfg, h, ops).rw == SfWrite(cfg, SfWriteHeader(cfg, f, 500), cfg.errorText);
    hide SfHeadIs, AtDue;
    SettledWhenDue(cfg, h, ops, head);
  }

  /** An injecter's or a file's answer is the head of its script, started with the headers that
      the handler had set but the one that called it; a file's goes through SendData again. */
  lemma ScriptedResponse(cfg: Config, h: Headers, ops: seq<Op>)
    requires NoSilence(cfg) && !Respond(cfg, h, ops).hijacked
    ensures var b := Respond(cfg, h, ops);
            var due := Due(h, ops);
            && (!b.rw.hijacked && b.rw.rw.hijacked ==>
                  cfg.inject(Get(due, HEADER_KEY)).Some?
                  && HeadIs(cfg, b.rw.rw.rw, FirstHead((due - {HEADER_KEY})["X-Accel-Buffering" := "no"],
                                                       cfg.inject(Get(due, HEADER_KEY)).value)))
            && (b.rw.hijacked ==>
                  HeadIs(cfg, b.rw.rw.rw,
                         SendDataHead(cfg, FirstHead((due - {SEND_FILE})["X-Accel-Buffering" := "no"],
                                                     cfg.file(Get(due, SEND_FILE))))))
  {
    WhoAnswers(cfg, h, ops);
    HeadOfTheResponse(cfg, h, ops);
    hide Respond, HeadIs, Due, DueStatus, NoSilence;
  }

  // ---------------------------------------------------------------------------
  // Scripts that leave a header alone
  // ---------------------------------------------------------------------------

  ghost predicate LeavesAlone(ops: seq<Op>, key: string) {
    forall op | op in ops :: (op.SetHeader? || op.DelHeader?) ==> op.key != key
  }

  ghost predicate ScriptsLeaveAlone(cfg: Config, key: string) {
    && (forall x | cfg.inject(x).Some? :: LeavesAlone(cfg.inject(x).value, key))
    && (forall name :: LeavesAlone(cfg.file(name), key))
  }

  lemma {:induction false} DueKeeps(h: Headers, ops: seq<Op>, key: string)
    requires LeavesAlone(ops, key)
    ensures Get(Due(h, ops), key) == Get(h, key)
    decreases |ops|
  {
    if ops != [] && !ops[0].WriteHeader? && !ops[0].Write? {
      assert ops[0] in ops && forall op | op in ops[1..] :: op in ops;
      assert Before(ops)[1..] == Before(ops[1..]);
      DueKeeps(if ops[0].SetHeader? then h[ops[0].key := ops[0].value] else h - {ops[0].key}, ops[1..], key);
    }
  }

  lemma SendDataKeeps(cfg: Config, head: Head, key: string)
    requires ScriptsLeaveAlone(cfg, key) && key !in {HEADER_KEY, "X-Accel-Buffering"}
    ensures Get(SendDataHead(cfg, head).headers, key) == Get(head.headers, key)
  {
    var x := Get(head.headers, HEADER_KEY);
    if head.status == 200 && x != "" && cfg.inject(x).Some? {
      DueKeeps((head.headers - {HEADER_KEY})["X-Accel-Buffering" := "no"], cfg.inject(x).value, key);
    }
    hide Due, DueStatus;
  }

  // ---------------------------------------------------------------------------
  // Silent scripts
  // ---------------------------------------------------------------------------

  lemma {:induction false} SilentFileOnlyHeaders(cfg: Config, d: Sd, ops: seq<Op>)
    requires Silent(ops)
    ensures FileOps(cfg, d, ops) == SdHeaders(d, FileOps(cfg, d, ops).rw.rw.headers)
    decreases |ops|
  {
    if ops != [] {
      assert ops[0] in ops && forall op | op in ops[1..] :: op in ops;
      match ops[0] {
        case SetHeader(k, v) => SilentFileOnlyHeaders(cfg, SdHeaders(d, d.rw.rw.headers[k := v]), ops[1..]);
        case DelHeader(k) => SilentFileOnlyHeaders(cfg, SdHeaders(d, d.rw.rw.headers - {k}), ops[1..]);
      }
    }
  }

  /** The chain after a 200 whose X-Sendfile header has named a silent file. */
  predicate FileUnsent(b: Bl) {
    b.status == b.rw.status == 200 && !b.hijacked && b.rw.hijacked && SdFresh(b.rw.rw)
  }

  lemma SilentFileHoldsBack(cfg: Config, name: string)
    requires name != "" && Silent(cfg.file(name)) && !cfg.isInternal("")
    ensures FileUnsent(BlWriteHeader(cfg, Initial(map[SEND_FILE := name]), 200))
  {
    var h := map[SEND_FILE := name];
    var d := Initial(h).rw.rw;
    SilentFileOnlyHeaders(cfg, SdHeaders(d, (h - {SEND_FILE})["X-Accel-Buffering" := "no"]), cfg.file(name));
    assert Get(h, SEND_FILE) == name && Get(h, CONTENT_TYPE) == "";
  }

  lemma FileUnsentTakesHeader(cfg: Config, b: Bl, key: string, value: string)
    requires FileUnsent(b) && key != HEADER_KEY
    ensures var b' := HandlerOp(cfg, HandlerOp(cfg, b, DelHeader(HEADER_KEY)), SetHeader(key, value));
            var c := Client(Flushes(cfg, b'));
            |c.heads| == 1 && Get(c.heads[0].headers, key) == value
  {
    var h := HeadersOf(b) - {HEADER_KEY};
    var h': Headers := h[key := value];
    assert Get(h', HEADER_KEY) == "" && Get(h' - {HEADER_KEY}, key) == value;
  }

  lemma SilentFileLeaks(cfg: Config, name: string, key: string, value: string)
    requires name != "" && Silent(cfg.file(name)) && !cfg.isInternal("") && key != HEADER_KEY
    ensures var ops := [WriteHeader(200), DelHeader(HEADER_KEY), SetHeader(key, value)];
            var c := Client(Respond(cfg, map[SEND_FILE := name], ops));
            |c.heads| == 1 && Get(c.heads[0].headers, key) == value
  {
    var o1, o2, o3 := WriteHeader(200), DelHeader(HEADER_KEY), SetHeader(key, value);
    var b0 := Initial(map[SEND_FILE := name]);
    SilentFileHoldsBack(cfg, name);
    var b1 := HandlerOp(cfg, b0, o1);
    FileUnsentTakesHeader(cfg, b1, key, value);
    var b2 := HandlerOp(cfg, b1, o2);
    hide HandlerOp, Flushes;
    assert [o1, o2, o3][1..] == [o2, o3] && [o2, o3][1..] == [o3] && [o3][1..] == [];
    assert HandlerOps(cfg, b2, [o3]) == HandlerOp(cfg, b2, o3);
    assert HandlerOps(cfg, b1, [o2, o3]) == HandlerOps(cfg, b2, [o3]);
    assert HandlerOps(cfg, b0, [o1, o2, o3]) == HandlerOps(cfg, b1, [o2, o3]);
  }

  /** A silent script lets a handler set any header after its head was due. */
  lemma SilenceLeaks(cfg: Config, key: string, value: string) returns (h: Headers, ops: seq<Op>, head: Head)
    requires !NoSilence(cfg) && !cfg.isInternal("") && key != HEADER_KEY
    ensures head in Client(Respond(cfg, h, ops)).heads && Get(head.headers, key) == value
    ensures ops != [] && ops[0] == WriteHeader(200) && Get(h, CONTENT_TYPE) == ""
  {
    if !InjectersSpeak(cfg) {
      var x :| x != "" && cfg.inject(x).Some? && Silent(cfg.inject(x).value);
      h, ops := map[HEADER_KEY := x], [WriteHeader(200), SetHeader(key, value)];
      SilentInjecterLeavesTheHead(cfg, x, key, value);
    } else {
      var name :| name != "" && Silent(cfg.file(name));
      h, ops := map[SEND_FILE := name], [WriteHeader(200), DelHeader(HEADER_KEY), SetHeader(key, value)];
      SilentFileLeaks(cfg, name, key, value);
    }
    hide Respond, Silent, InjectersSpeak;
    head := Client(Respond(cfg, h, ops)).heads[0];
  }

  // ---------------------------------------------------------------------------
  // X-Sendfile
  // ---------------------------------------------------------------------------

  /** A 200 that is not blocked loses the header; any other status keeps it, as the code does. */
  lemma ForwardedSendFile(cfg: Config, head: Head)
    requires ScriptsLeaveAlone(cfg, SEND_FILE)
    ensures Get(Forwarded(cfg, head).headers, SEND_FILE)
            == if head.status == 200 && !cfg.isInternal(Get(head.headers, CONTENT_TYPE)) then ""
               else Get(head.headers, SEND_FILE)
  {
    hide SendDataHead, ScriptsLeaveAlone, Due, DueStatus;
    var blocked := Head(500, (head.headers - {CONTENT_LENGTH})[CONTENT_TYPE := "text/plain; charset=utf-8"][
                               "X-Content-Type-Options" := "nosniff"]);
    SendDataKeeps(cfg, blocked, SEND_FILE);
    SendDataKeeps(cfg, head, SEND_FILE);
    var name := Get(head.headers, SEND_FILE);
    var bare := (head.headers - {SEND_FILE})["X-Accel-Buffering" := "no"];
    SendDataKeeps(cfg, FirstHead(bare, cfg.file(name)), SEND_FILE);
    assert LeavesAlone(cfg.file(name), SEND_FILE) by { FilesLeaveAlone(cfg, name, SEND_FILE); }
    DueKeeps(bare, cfg.file(name), SEND_FILE);
  }

  lemma FilesLeaveAlone(cfg: Config, name: string, key: string)
    requires ScriptsLeaveAlone(cfg, key)
    ensures LeavesAlone(cfg.file(name), key)
  {
  }

  /** The path of the file: which heads carry it. */
  lemma SendFileHeaderIs(cfg: Config, h: Headers, ops: seq<Op>, head: Head)
    requires NoSilence(cfg) && ScriptsLeaveAlone(cfg, SEND_FILE) && head in Client(Respond(cfg, h, ops)).heads
    ensures Get(head.headers, SEND_FILE)
            == if DueStatus(ops) == 200 && !cfg.isInternal(Get(Due(h, ops), CONTENT_TYPE)) then ""
               else Get(Due(h, ops), SEND_FILE)
  {
    var due := Head(DueStatus(ops), Due(h, ops));
    HeadOfTheResponse(cfg, h, ops);
    ForwardedSendFile(cfg, due);
    PageIsDueIff(cfg, Forwarded(cfg, due));
    hide Respond, Forwarded, PageDue, Paged, Due, DueStatus, NoSilence, ScriptsLeaveAlone;
  }

  /** No handler whose head is a 200 that Block lets through can make X-Sendfile go out. */
  ghost predicate NoHeadHasSendFile(cfg: Config) {
    forall h, ops, head | head in Client(Respond(cfg, h, ops)).heads
                          && DueStatus(ops) == 200 && !cfg.isInternal(Get(Due(h, ops), CONTENT_TYPE)) ::
      Get(head.headers, SEND_FILE) == ""
  }

  /**
   The exact condition: for scripts that leave it alone, X-Sendfile is gone from every head
   of a 200 that Block lets through if and only if no script is silent. (With another
   status, or blocked, it stays: SendFileHeaderIs.)
   */
  lemma SendFileHeaderIsGoneIff(cfg: Config)
    requires ScriptsLeaveAlone(cfg, SEND_FILE) && !cfg.isInternal("")
    ensures NoHeadHasSendFile(cfg) <==> NoSilence(cfg)
  {
    if NoSilence(cfg) {
      forall h, ops, head | head in Client(Respond(cfg, h, ops)).heads
                            && DueStatus(ops) == 200 && !cfg.isInternal(Get(Due(h, ops), CONTENT_TYPE))
        ensures Get(head.headers, SEND_FILE) == ""
      {
        SendFileHeaderIs(cfg, h, ops, head);
      }
    } else {
      var h, ops, head := SilenceLeaks(cfg, SEND_FILE, "path");
      assert DueStatus(ops) == 200 && Due(h, ops) == h && Get(h, CONTENT_TYPE) == "";
    }
  }

  // ---------------------------------------------------------------------------
  // The internal content type
  // ---------------------------------------------------------------------------

  predicate TypeOk(cfg: Config, h: Headers) { !cfg.isInternal(Get(h, CONTENT_TYPE)) }

  ghost predicate KeepsType(cfg: Config, ops: seq<Op>) {
    forall v | SetHeader(CONTENT_TYPE, v) in ops :: !cfg.isInternal(v)
  }

  /** The internal type is none that the chain, its scripts or no one at all would set. */
  ghost predicate TypeIsReserved(cfg: Config) {
    && !cfg.isInternal("")
    && !cfg.isInternal("text/plain; charset=utf-8") && !cfg.isInternal("text/html; charset=utf-8")
    && (forall x | cfg.inject(x).Some? :: KeepsType(cfg, cfg.inject(x).value))
    && (forall name :: KeepsType(cfg, cfg.file(name)))
  }

  lemma {:induction false} DueKeepsType(cfg: Config, h: Headers, ops: seq<Op>)
    requires KeepsType(cfg, ops) && TypeOk(cfg, h) && !cfg.isInternal("")
    ensures TypeOk(cfg, Due(h, ops))
    decreases |ops|
  {
    if ops != [] && !ops[0].WriteHeader? && !ops[0].Write? {
      assert ops[0] in ops && forall op | op in ops[1..] :: op in ops;
      assert Before(ops)[1..] == Before(ops[1..]);
      DueKeepsType(cfg, if ops[0].SetHeader? then h[ops[0].key := ops[0].value] else h - {ops[0].key}, ops[1..]);
    }
  }

  lemma SendDataKeepsType(cfg: Config, head: Head)
    requires TypeIsReserved(cfg) && TypeOk(cfg, head.headers)
    ensures TypeOk(cfg, SendDataHead(cfg, head).headers)
  {
    var x := Get(head.headers, HEADER_KEY);
    if head.status == 200 && x != "" && cfg.inject(x).Some? {
      DueKeepsType(cfg, (head.headers - {HEADER_KEY})["X-Accel-Buffering" := "no"], cfg.inject(x).value);
    }
    hide Due, DueStatus;
  }

  lemma ForwardedType(cfg: Config, head: Head)
    requires TypeIsReserved(cfg)
    ensures TypeOk(cfg, Forwarded(cfg, head).headers)
  {
    hide SendDataHead, Due, DueStatus;
    var blocked := Head(500, (head.headers - {CONTENT_LENGTH})[CONTENT_TYPE := "text/plain; charset=utf-8"][
                               "X-Content-Type-Options" := "nosniff"]);
    SendDataKeepsType(cfg, blocked);
    if TypeOk(cfg, head.headers) {
      SendDataKeepsType(cfg, head);
      var bare := (head.headers - {SEND_FILE})["X-Accel-Buffering" := "no"];
      var script := cfg.file(Get(head.headers, SEND_FILE));
      DueKeepsType(cfg, bare, script);
      SendDataKeepsType(cfg, FirstHead(bare, script));
    }
  }

  lemma NoSilenceNoLeak(cfg: Config, h: Headers, ops: seq<Op>, head: Head)
    requires TypeIsReserved(cfg) && NoSilence(cfg) && head in Client(Respond(cfg, h, ops)).heads
    ensures TypeOk(cfg, head.headers)
  {
    var due := Head(DueStatus(ops), Due(h, ops));
    HeadOfTheResponse(cfg, h, ops);
    ForwardedType(cfg, due);
    PageIsDueIff(cfg, Forwarded(cfg, due));
    hide Respond, Forwarded, PageDue, Paged, Due, DueStatus, NoSilence;
  }

  ghost predicate NoHeadIsInternal(cfg: Config) {
    forall h, ops, head | head in Client(Respond(cfg, h, ops)).heads :: TypeOk(cfg, head.headers)
  }

  /**
   The exact condition: no handler can make the chain send a head of the internal type
   if and only if no script can hold the head back by sending nothing: no file, and no
   injecter that a header can call. It is the same for routes with error pages and without.
   */
  lemma InternalTypeIff(cfg: Config, t: string)
    requires TypeIsReserved(cfg) && cfg.isInternal(t)
    ensures NoHeadIsInternal(cfg) <==> NoSilence(cfg)
  {
    if NoSilence(cfg) {
      forall h, ops, head | head in Client(Respond(cfg, h, ops)).heads ensures TypeOk(cfg, head.headers) {
        NoSilenceNoLeak(cfg, h, ops, head);
      }
    } else {
      var h, ops, head := SilenceLeaks(cfg, CONTENT_TYPE, t);
    }
  }
}
