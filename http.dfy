/**
 * The HTTP values the proxy handler works on: header and query multimaps (net/http's
 * Header, net/url's Values), the response writer it fills in (gin's Context and its
 * ResponseWriter), and the collaborators it calls but that are not modelled here.
 */
module Http {
  import opened Wrappers

  type Bytes = seq<bv8>

  /** http.Header and url.Values: each key holds an ordered list of values. */
  type Multimap = map<string, seq<string>>

  /** Header.Get / Values.Get: the first value of `key`, or "" when there is none. */
  function Get(m: Multimap, key: string): (v: string)
    ensures key in m && |m[key]| > 0 ==> v == m[key][0]
    ensures key !in m || |m[key]| == 0 ==> v == ""
  {
    if key in m && |m[key]| > 0 then m[key][0] else ""
  }

  /** Header.Add: appends a value to the key's list. */
  function Add(m: Multimap, key: string, value: string): (r: Multimap)
    ensures key in r && r[key] == (if key in m then m[key] else []) + [value]
    ensures forall k :: k != key ==> (k in r <==> k in m) && (k in m ==> r[k] == m[k])
  {
    m[key := (if key in m then m[key] else []) + [value]]
  }

  /** Header.Set / Values.Set: the key holds exactly this one value. */
  function Set(m: Multimap, key: string, value: string): (r: Multimap)
    ensures key in r && r[key] == [value]
    ensures forall k :: k != key ==> (k in r <==> k in m) && (k in m ==> r[k] == m[k])
  {
    m[key := [value]]
  }

  /** The headers of a gin response: every write through Context.Header leaves one value per key. */
  type Fields = map<string, string>

  /** gin's Context.Header: sets the key to the value, or deletes the key when the value is empty. */
  function Put(h: Fields, key: string, value: string): (r: Fields)
    ensures value != "" ==> key in r && r[key] == value
    ensures value == "" ==> key !in r
    ensures forall k :: k != key ==> (k in r <==> k in h) && (k in h ==> r[k] == h[k])
  {
    if value == "" then h - {key} else h[key := value]
  }

  /** Header().Get on the response headers: the key's value, or "" when the key is absent. */
  function Lookup(h: Fields, key: string): (v: string)
    ensures key in h ==> v == h[key]
    ensures key !in h ==> v == ""
  {
    if key in h then h[key] else ""
  }

  /** Reading back after a Context.Header write: the key reads as the value written, every other key as before. */
  lemma LookupAfterPut(h: Fields, key: string, value: string, other: string)
    ensures Lookup(Put(h, key, value), key) == value
    ensures other != key ==> Lookup(Put(h, key, value), other) == Lookup(h, other)
  {
  }

  /** gin's render step: Content-Type is written only when the response has none yet. */
  function PutIfAbsent(h: Fields, key: string, value: string): (r: Fields)
    ensures key in h ==> r == h
    ensures key !in h ==> r == h[key := value]
  {
    if key in h then h else h[key := value]
  }

  /**
   * What has been written as the response body: nothing, the relayed bytes, or the
   * proxy's own JSON error envelope (`code`, `msg`, `message`), of which only the numeric
   * code is modelled.
   */
  datatype Payload = NoBody | Raw(bytes: Bytes) | Envelope(code: int)

  /** The observable state of a response: status code, headers and body. */
  datatype Reply = Reply(status: int, header: Fields, payload: Payload)

  const JsonErrorContentType := "application/json; charset=utf-8"

  /** gin's per-request response writer, as the handler sees it. */
  class ResponseWriter {
    var status: int
    var header: Fields
    var payload: Payload

    function State(): Reply
      reads this
    {
      Reply(status, header, payload)
    }

    /** A fresh writer holds whatever headers earlier middleware put there and status 200. */
    constructor (preset: Fields)
      ensures State() == Reply(200, preset, NoBody)
    {
      status := 200;
      header := preset;
      payload := NoBody;
    }

    /** Context.Header */
    method Header(key: string, value: string)
      modifies this
      ensures header == Put(old(header), key, value)
      ensures status == old(status) && payload == old(payload)
    {
      header := Put(header, key, value);
    }

    /** Context.Status */
    method Status(code: int)
      modifies this
      ensures State() == old(State()).(status := code)
    {
      status := code;
    }

    /** Context.Data */
    method Data(code: int, contentType: string, bytes: Bytes)
      modifies this
      ensures State() == Reply(code, PutIfAbsent(old(header), "Content-Type", contentType), Raw(bytes))
    {
      status := code;
      header := PutIfAbsent(header, "Content-Type", contentType);
      payload := Raw(bytes);
    }

    /** Context.JSON with the proxy's error envelope. */
    method Json(code: int, errorCode: int)
      modifies this
      ensures State() == Reply(code, PutIfAbsent(old(header), "Content-Type", JsonErrorContentType), Envelope(errorCode))
    {
      status := code;
      header := PutIfAbsent(header, "Content-Type", JsonErrorContentType);
      payload := Envelope(errorCode);
    }
  }

  /** The request the handler receives: method (`verb`), decoded URL path, parsed query, headers and body. */
  datatype Inbound = Inbound(verb: string, path: string, query: Multimap, header: Multimap, body: Bytes)

  /** The request the handler sends upstream. */
  datatype Outbound = Outbound(verb: string, url: string, header: Multimap, body: Bytes)

  /**
   * What the one HTTP client call gives back (after any redirects it follows): a transport failure, or a status and headers
   * together with the body, which may fail to read.
   */
  datatype Transport = Unreachable | Answered(status: int, header: Multimap, body: Option<Bytes>)

  /**
   * The handler's collaborators, left uninterpreted: whether http.NewRequest accepts a
   * method and URL, the one HTTP client call (with the body read), gzip decoding
   * (None when the reader cannot be created or the read fails), the JSON validity test
   * of json.Unmarshal, and url.Values.Encode.
   */
  datatype World = World(
    accepts: (string, string) -> bool,
    dispatch: Outbound -> Transport,
    gunzip: Bytes -> Option<Bytes>,
    isJson: Bytes -> bool,
    encode: Multimap -> string)
}
