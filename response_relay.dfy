/**
 * How the upstream answer is turned into the response: which body is sent, which upstream
 * headers are copied, the Content-Type chosen, the CORS headers asserted and when
 * Content-Length is rewritten.
 */
module ResponseRelay {
  import opened Wrappers
  import opened Text
  import opened Http

  const AllowOrigin := "Access-Control-Allow-Origin"
  const AllowMethods := "Access-Control-Allow-Methods"
  const AllowHeaders := "Access-Control-Allow-Headers"
  const MaxAge := "Access-Control-Max-Age"
  const AnyOrigin := "*"
  const MethodList := "GET, POST, PUT, DELETE, OPTIONS"
  const HeaderList := "Content-Type, Authorization"
  const MaxAgeSeconds := "3600"
  const JsonType := "application/json"
  const TextType := "text/plain; charset=utf-8"

  /** The upstream declared a gzip body: its first Content-Encoding value is exactly "gzip". */
  predicate DeclaredGzip(up: Multimap) {
    Get(up, "Content-Encoding") == "gzip"
  }

  /**
   * The body that is sent: the decoded form only when gzip was declared and decoding
   * succeeded; the bytes as received in every other case.
   */
  function SendBody(body: Bytes, up: Multimap, gunzip: Bytes -> Option<Bytes>): (sent: Bytes)
    ensures DeclaredGzip(up) && gunzip(body).Some? ==> sent == gunzip(body).value
    ensures !DeclaredGzip(up) || gunzip(body).None? ==> sent == body
  {
    if DeclaredGzip(up) then
      match gunzip(body)
      case Some(decoded) => decoded
      case None => body
    else body
  }

  /**
   * The Content-Type of the response: the upstream's first value when it is not empty;
   * otherwise "application/json" for an empty or JSON body and
   * "text/plain; charset=utf-8" for anything else.
   */
  function ContentTypeFor(up: Multimap, sent: Bytes, isJson: Bytes -> bool): (ct: string)
    ensures ct != ""
    ensures Get(up, "Content-Type") != "" ==> ct == Get(up, "Content-Type")
    ensures Get(up, "Content-Type") == "" ==>
      (ct == JsonType <==> |sent| == 0 || isJson(sent)) && (ct == JsonType || ct == TextType)
  {
    var declared := Get(up, "Content-Type");
    if declared != "" then declared
    else if |sent| > 0 then (if isJson(sent) then JsonType else TextType)
    else JsonType
  }

  /** Upstream headers that are not copied: Content-Encoding and Content-Length, whenever gzip was declared. */
  predicate Withheld(key: string, gzip: bool) {
    var lower := ToLower(key);
    gzip && (lower == "content-encoding" || lower == "content-length")
  }

  function Last(values: seq<string>): string
    requires |values| > 0
  {
    values[|values| - 1]
  }

  /** The copy writes this upstream key: it has been visited, is not withheld and has a value. */
  predicate Takes(up: Multimap, gzip: bool, done: set<string>, k: string) {
    k in done && k in up && !Withheld(k, gzip) && |up[k]| > 0
  }

  /**
   * The response headers once the upstream keys in `done` have been copied, in any order,
   * each value through Context.Header: a copied key ends with its last value, or is
   * removed when that value is empty; every other key keeps what it had.
   */
  function CopiedOver(h0: Fields, up: Multimap, gzip: bool, done: set<string>): Fields {
    map k | k in h0.Keys + (done * up.Keys) && (if Takes(up, gzip, done, k) then Last(up[k]) != "" else k in h0)
      :: if Takes(up, gzip, done, k) then Last(up[k]) else h0[k]
  }

  lemma CopiedStep(h0: Fields, up: Multimap, gzip: bool, done: set<string>, key: string)
    requires key in up && key !in done
    ensures CopiedOver(h0, up, gzip, done + {key}) ==
      if Withheld(key, gzip) || |up[key]| == 0 then CopiedOver(h0, up, gzip, done)
      else Put(CopiedOver(h0, up, gzip, done), key, Last(up[key]))
  {
    var before := CopiedOver(h0, up, gzip, done);
    var after := CopiedOver(h0, up, gzip, done + {key});
    var expected := if Withheld(key, gzip) || |up[key]| == 0 then before else Put(before, key, Last(up[key]));
    forall k
      ensures (k in after <==> k in expected) && (k in after ==> after[k] == expected[k])
    {
      if k != key {
        assert Takes(up, gzip, done + {key}, k) == Takes(up, gzip, done, k);
      }
    }
    assert after == expected;
  }

  lemma PutTwice(h: Fields, key: string, a: string, b: string)
    ensures Put(Put(h, key, a), key, b) == Put(h, key, b)
  {
  }

  /** The writes of one upstream header, value by value. */
  method CopyValues(w: ResponseWriter, key: string, values: seq<string>)
    modifies w
    ensures w.header == if |values| == 0 then old(w.header) else Put(old(w.header), key, Last(values))
    ensures w.status == old(w.status) && w.payload == old(w.payload)
  {
    var j := 0;
    while j < |values|
      invariant 0 <= j <= |values|
      invariant w.header == if j == 0 then old(w.header) else Put(old(w.header), key, values[j - 1])
      invariant w.status == old(w.status) && w.payload == old(w.payload)
    {
      w.Header(key, values[j]);
      if j > 0 {
        PutTwice(old(w.header), key, values[j - 1], values[j]);
      }
      j := j + 1;
    }
  }

  /** The response-header copy: every upstream key is visited once, in whatever order the map yields. */
  method CopyHeaders(w: ResponseWriter, up: Multimap, gzip: bool)
    modifies w
    ensures w.header == CopiedOver(old(w.header), up, gzip, up.Keys)
    ensures w.status == old(w.status) && w.payload == old(w.payload)
  {
    var pending := up.Keys;
    while pending != {}
      invariant pending <= up.Keys
      invariant w.header == CopiedOver(old(w.header), up, gzip, up.Keys - pending)
      invariant w.status == old(w.status) && w.payload == old(w.payload)
      decreases pending
    {
      var key :| key in pending;
      ghost var done := up.Keys - pending;
      CopiedStep(old(w.header), up, gzip, done, key);
      var lower := ToLower(key);
      if lower == "content-encoding" && gzip {
      } else if lower == "content-length" && gzip {
      } else {
        CopyValues(w, key, up[key]);
      }
      pending := pending - {key};
      assert up.Keys - pending == done + {key};
    }
    assert up.Keys - pending == up.Keys;
  }

  /** The three CORS headers every relayed response asserts. */
  function WithCors(h: Fields): (r: Fields)
    ensures AllowOrigin in r && AllowMethods in r && AllowHeaders in r
    ensures r[AllowOrigin] == AnyOrigin && r[AllowMethods] == MethodList && r[AllowHeaders] == HeaderList
    ensures forall k :: k != AllowOrigin && k != AllowMethods && k != AllowHeaders ==>
      (k in r <==> k in h) && (k in h ==> r[k] == h[k])
  {
    Put(Put(Put(h, AllowOrigin, AnyOrigin), AllowMethods, MethodList), AllowHeaders, HeaderList)
  }

  /**
   * The response headers of a relayed answer: the upstream headers copied over what the
   * writer held, then Content-Type and the CORS headers, then Content-Length set to the
   * length of the body sent when gzip was declared or no Content-Length is present.
   */
  function RelayedHeaders(h0: Fields, up: Multimap, sent: Bytes, ct: string): Fields
    requires ct != ""
  {
    var gzip := DeclaredGzip(up);
    var h := WithCors(Put(CopiedOver(h0, up, gzip, up.Keys), "Content-Type", ct));
    if gzip || Lookup(h, "Content-Length") == "" then Put(h, "Content-Length", Decimal(|sent|)) else h
  }

  /** The state of the response after a relayed answer. */
  function Relayed(start: Fields, status: int, up: Multimap, body: Bytes, world: World): Reply {
    var sent := SendBody(body, up, world.gunzip);
    Reply(status, RelayedHeaders(start, up, sent, ContentTypeFor(up, sent, world.isJson)), Raw(sent))
  }

  /** The relay half of the handler, from the decoding decision to Context.Data. */
  method Relay(w: ResponseWriter, status: int, up: Multimap, body: Bytes, world: World)
    modifies w
    ensures w.State() == Relayed(old(w.header), status, up, body, world)
  {
    var contentEncoding := Get(up, "Content-Encoding");
    var bodyToSend := body;
    if contentEncoding == "gzip" {
      match world.gunzip(body) {
        case Some(decompressed) => bodyToSend := decompressed;
        case None =>
      }
    }
    ghost var sent := SendBody(body, up, world.gunzip);
    assert bodyToSend == sent;
    CopyHeaders(w, up, contentEncoding == "gzip");
    var contentType := Get(up, "Content-Type");
    if contentType == "" {
      if |bodyToSend| > 0 {
        contentType := if world.isJson(bodyToSend) then JsonType else TextType;
      } else {
        contentType := JsonType;
      }
    }
    w.Header("Content-Type", contentType);
    w.Header(AllowOrigin, AnyOrigin);
    w.Header(AllowMethods, MethodList);
    w.Header(AllowHeaders, HeaderList);
    assert contentType == ContentTypeFor(up, sent, world.isJson);
    assert w.header == WithCors(Put(CopiedOver(old(w.header), up, DeclaredGzip(up), up.Keys), "Content-Type", contentType));
    if contentEncoding == "gzip" || Lookup(w.header, "Content-Length") == "" {
      w.Header("Content-Length", Decimal(|bodyToSend|));
    }
    assert w.header == RelayedHeaders(old(w.header), up, sent, contentType);
    assert "Content-Type" in w.header;
    w.Data(status, contentType, bodyToSend);
  }

  /** The copy at one key. */
  lemma CopiedAt(h0: Fields, up: Multimap, gzip: bool, k: string)
    ensures var c := CopiedOver(h0, up, gzip, up.Keys);
      && (Takes(up, gzip, up.Keys, k) ==>
            (Last(up[k]) != "" ==> k in c && c[k] == Last(up[k])) && (Last(up[k]) == "" ==> k !in c))
      && (!Takes(up, gzip, up.Keys, k) ==> (k in c <==> k in h0) && (k in h0 ==> c[k] == h0[k]))
  {
  }

  lemma EncodingNamesWithheld()
    ensures Withheld("Content-Encoding", true) && Withheld("Content-Length", true)
  {
    var ce := ToLower("Content-Encoding");
    assert ce == "content-encoding" by {
      assert forall i :: 0 <= i < |ce| ==> ce[i] == LowerChar("Content-Encoding"[i]);
    }
    var cl := ToLower("Content-Length");
    assert cl == "content-length" by {
      assert forall i :: 0 <= i < |cl| ==> cl[i] == LowerChar("Content-Length"[i]);
    }
  }

  /**
   * Content-Type and the three CORS headers are written after the copy, so they hold the
   * proxy's values whatever the upstream sent.
   */
  lemma CorsAndTypeAsserted(h0: Fields, up: Multimap, sent: Bytes, ct: string)
    requires ct != ""
    ensures var r := RelayedHeaders(h0, up, sent, ct);
      && "Content-Type" in r && r["Content-Type"] == ct
      && AllowOrigin in r && r[AllowOrigin] == AnyOrigin
      && AllowMethods in r && r[AllowMethods] == MethodList
      && AllowHeaders in r && r[AllowHeaders] == HeaderList
  {
  }

  /**
   * When gzip was declared, neither Content-Encoding nor Content-Length is copied from the
   * upstream, whether or not decoding succeeded: Content-Encoding is whatever the writer
   * already held, and Content-Length is the length of the body actually sent.
   */
  lemma GzipDeclaredHeaders(h0: Fields, up: Multimap, sent: Bytes, ct: string)
    requires ct != "" && DeclaredGzip(up)
    ensures var r := RelayedHeaders(h0, up, sent, ct);
      && ("Content-Encoding" in r <==> "Content-Encoding" in h0)
      && ("Content-Encoding" in h0 ==> r["Content-Encoding"] == h0["Content-Encoding"])
      && "Content-Length" in r && r["Content-Length"] == Decimal(|sent|)
  {
    EncodingNamesWithheld();
    CopiedAt(h0, up, true, "Content-Encoding");
    var c := CopiedOver(h0, up, true, up.Keys);
    assert !Takes(up, true, up.Keys, "Content-Encoding");
    GzipShape(h0, up, sent, ct);
    AssertedKeepsOthers(c, ct, "Content-Encoding");
  }

  lemma GzipShape(h0: Fields, up: Multimap, sent: Bytes, ct: string)
    requires ct != "" && DeclaredGzip(up)
    ensures RelayedHeaders(h0, up, sent, ct) ==
      Put(WithCors(Put(CopiedOver(h0, up, true, up.Keys), "Content-Type", ct)), "Content-Length", Decimal(|sent|))
  {
  }

  /** Writing Content-Type and the CORS headers leaves every other key as it was. */
  lemma AssertedKeepsOthers(c: Fields, ct: string, k: string)
    requires ct != ""
    requires k != "Content-Type" && k != AllowOrigin && k != AllowMethods && k != AllowHeaders
    ensures var h := WithCors(Put(c, "Content-Type", ct));
      (k in h <==> k in c) && (k in c ==> h[k] == c[k])
  {
  }

  /**
   * Without a gzip declaration, an upstream Content-Length whose last value is not empty
   * is relayed as is; when neither the upstream nor the writer has one, it is set to the
   * length of the body.
   */
  lemma PlainContentLength(h0: Fields, up: Multimap, sent: Bytes, ct: string)
    requires ct != "" && !DeclaredGzip(up)
    ensures var r := RelayedHeaders(h0, up, sent, ct);
      && ("Content-Length" in up && |up["Content-Length"]| > 0 && Last(up["Content-Length"]) != "" ==>
            "Content-Length" in r && r["Content-Length"] == Last(up["Content-Length"]))
      && ("Content-Length" !in up && "Content-Length" !in h0 ==>
            "Content-Length" in r && r["Content-Length"] == Decimal(|sent|))
  {
    CopiedAt(h0, up, false, "Content-Length");
    var c := CopiedOver(h0, up, false, up.Keys);
    AssertedKeepsOthers(c, ct, "Content-Length");
    PlainShape(h0, up, sent, ct);
  }

  lemma PlainShape(h0: Fields, up: Multimap, sent: Bytes, ct: string)
    requires ct != "" && !DeclaredGzip(up)
    ensures var h := WithCors(Put(CopiedOver(h0, up, false, up.Keys), "Content-Type", ct));
      RelayedHeaders(h0, up, sent, ct) ==
        if Lookup(h, "Content-Length") == "" then Put(h, "Content-Length", Decimal(|sent|)) else h
  {
  }

  /**
   * Every other upstream header that is copied ends up with its last value, or is absent
   * when that value is empty: response headers are single-valued.
   */
  lemma LastValueWins(h0: Fields, up: Multimap, sent: Bytes, ct: string, k: string)
    requires ct != ""
    requires k in up && |up[k]| > 0 && !Withheld(k, DeclaredGzip(up))
    requires k != "Content-Type" && k != "Content-Length" && k != AllowOrigin && k != AllowMethods && k != AllowHeaders
    ensures var r := RelayedHeaders(h0, up, sent, ct);
      && (Last(up[k]) != "" ==> k in r && r[k] == Last(up[k]))
      && (Last(up[k]) == "" ==> k !in r)
  {
    var gzip := DeclaredGzip(up);
    assert Takes(up, gzip, up.Keys, k);
  }

  /**
   * A declared gzip body that cannot be decoded is sent as the compressed bytes, with no
   * Content-Encoding (when the writer held none) and a Content-Length equal to their length.
   */
  lemma UndecodableGzipRelayed(start: Fields, status: int, up: Multimap, body: Bytes, world: World)
    requires DeclaredGzip(up) && world.gunzip(body).None?
    requires "Content-Encoding" !in start
    ensures var reply := Relayed(start, status, up, body, world);
      && reply.status == status
      && reply.payload == Raw(body)
      && "Content-Encoding" !in reply.header
      && "Content-Length" in reply.header && reply.header["Content-Length"] == Decimal(|body|)
  {
    GzipDeclaredHeaders(start, up, body, ContentTypeFor(up, body, world.isJson));
  }

  /**
   * A declared gzip body that decodes is sent decoded, without Content-Encoding (when the
   * writer held none) and with the decoded length as Content-Length.
   */
  lemma DecodedGzipRelayed(start: Fields, status: int, up: Multimap, body: Bytes, world: World)
    requires DeclaredGzip(up) && world.gunzip(body).Some?
    requires "Content-Encoding" !in start
    ensures var reply := Relayed(start, status, up, body, world);
      && reply.status == status
      && reply.payload == Raw(world.gunzip(body).value)
      && "Content-Encoding" !in reply.header
      && "Content-Length" in reply.header && reply.header["Content-Length"] == Decimal(|world.gunzip(body).value|)
  {
    var sent := world.gunzip(body).value;
    GzipDeclaredHeaders(start, up, sent, ContentTypeFor(up, sent, world.isJson));
  }
}
