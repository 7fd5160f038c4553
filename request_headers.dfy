/** Which inbound headers reach the upstream request, and with what values. */
module RequestHeaders {
  import opened Text
  import opened Http

  const AcceptEncoding := "Accept-Encoding"
  const PinnedEncoding := "gzip, deflate"
  const UserAgent := "User-Agent"
  const ProxyAgent := "Binance-Proxy/1.0"

  /** Host and the connection-management headers, matched without regard to case. */
  predicate HopHeader(key: string) {
    var lower := ToLower(key);
    lower == "host" || lower == "connection" || lower == "keep-alive"
  }

  predicate IsAcceptEncoding(key: string) {
    ToLower(key) == "accept-encoding"
  }

  /** A header whose values are copied one by one. */
  predicate Forwarded(key: string) {
    !HopHeader(key) && !IsAcceptEncoding(key)
  }

  lemma FixedNames()
    ensures !HopHeader(AcceptEncoding) && IsAcceptEncoding(AcceptEncoding)
    ensures Forwarded(UserAgent)
  {
    var ae := ToLower(AcceptEncoding);
    assert ae == "accept-encoding" by {
      assert forall i :: 0 <= i < |ae| ==> ae[i] == LowerChar(AcceptEncoding[i]);
    }
    var ua := ToLower(UserAgent);
    assert ua[0] == 'u';
    assert |ua| == 10;
  }

  /** The forwarded headers among the keys in `done`, each with all its values. */
  function ForwardedFrom(inbound: Multimap, done: set<string>): Multimap {
    map k | k in done && k in inbound && Forwarded(k) && |inbound[k]| > 0 :: inbound[k]
  }

  /** Some key in `done` is an Accept-Encoding header. */
  predicate SawAcceptEncoding(inbound: Multimap, done: set<string>) {
    exists k :: k in done && k in inbound && IsAcceptEncoding(k)
  }

  /** The outbound headers once the keys in `done` have been visited, in any order. */
  function CopiedFrom(inbound: Multimap, done: set<string>): Multimap {
    var copied := ForwardedFrom(inbound, done);
    if SawAcceptEncoding(inbound, done) then Set(copied, AcceptEncoding, PinnedEncoding) else copied
  }

  /**
   * The headers of the upstream request: no host or connection-management header; an
   * Accept-Encoding pinned to "gzip, deflate" exactly when the client sent one; every
   * other header with all its values in order; and the proxy's User-Agent exactly when
   * the first User-Agent value would otherwise be empty or missing.
   */
  function OutboundHeaders(inbound: Multimap): (out: Multimap)
    ensures forall k :: k in out ==> !HopHeader(k)
    ensures forall k :: k in out ==> (k in inbound && Forwarded(k)) || k == AcceptEncoding || k == UserAgent
    ensures AcceptEncoding in out <==> exists k :: k in inbound && IsAcceptEncoding(k)
    ensures AcceptEncoding in out ==> out[AcceptEncoding] == [PinnedEncoding]
    ensures forall k :: k in inbound && Forwarded(k) && k != UserAgent ==>
      (k in out <==> |inbound[k]| > 0) && (k in out ==> out[k] == inbound[k])
    ensures UserAgent in out
    ensures out[UserAgent] == if Get(inbound, UserAgent) == "" then [ProxyAgent] else inbound[UserAgent]
  {
    FixedNames();
    var staged := CopiedFrom(inbound, inbound.Keys);
    assert Get(staged, UserAgent) == Get(inbound, UserAgent);
    if Get(staged, UserAgent) == "" then Set(staged, UserAgent, ProxyAgent) else staged
  }

  /** Visiting one more key changes only that key's entry (or pins Accept-Encoding). */
  lemma CopiedStep(inbound: Multimap, done: set<string>, key: string)
    requires key in inbound && key !in done
    ensures CopiedFrom(inbound, done + {key}) ==
      if HopHeader(key) then CopiedFrom(inbound, done)
      else if IsAcceptEncoding(key) then Set(CopiedFrom(inbound, done), AcceptEncoding, PinnedEncoding)
      else if |inbound[key]| == 0 then CopiedFrom(inbound, done)
      else CopiedFrom(inbound, done)[key := inbound[key]]
  {
    FixedNames();
    ForwardedStep(inbound, done, key);
    if IsAcceptEncoding(key) {
      assert SawAcceptEncoding(inbound, done + {key});
    } else {
      SawStep(inbound, done, key);
    }
  }

  lemma ForwardedStep(inbound: Multimap, done: set<string>, key: string)
    requires key in inbound && key !in done
    ensures ForwardedFrom(inbound, done + {key}) ==
      if Forwarded(key) && |inbound[key]| > 0 then ForwardedFrom(inbound, done)[key := inbound[key]]
      else ForwardedFrom(inbound, done)
  {
    var after := ForwardedFrom(inbound, done + {key});
    var expected := if Forwarded(key) && |inbound[key]| > 0 then ForwardedFrom(inbound, done)[key := inbound[key]]
      else ForwardedFrom(inbound, done);
    assert after.Keys == expected.Keys;
  }

  lemma SawStep(inbound: Multimap, done: set<string>, key: string)
    requires !IsAcceptEncoding(key)
    ensures SawAcceptEncoding(inbound, done + {key}) == SawAcceptEncoding(inbound, done)
  {
    if SawAcceptEncoding(inbound, done + {key}) {
      var k :| k in done + {key} && k in inbound && IsAcceptEncoding(k);
      assert k in done;
    }
  }

  /** Adds the values of one header, in order, under a key the outbound headers do not have yet. */
  method AddAll(h: Multimap, key: string, values: seq<string>) returns (r: Multimap)
    requires key !in h
    ensures r == if |values| == 0 then h else h[key := values]
  {
    r := h;
    var j := 0;
    while j < |values|
      invariant 0 <= j <= |values|
      invariant r == if j == 0 then h else h[key := values[..j]]
    {
      assert values[..j + 1] == values[..j] + [values[j]];
      r := Add(r, key, values[j]);
      j := j + 1;
    }
    assert values[..j] == values;
  }

  /** The request-header copy: every inbound key is visited once, in whatever order the map yields. */
  method FilterRequestHeaders(inbound: Multimap) returns (out: Multimap)
    ensures out == OutboundHeaders(inbound)
  {
    FixedNames();
    out := map[];
    var pending := inbound.Keys;
    while pending != {}
      invariant pending <= inbound.Keys
      invariant out == CopiedFrom(inbound, inbound.Keys - pending)
      decreases pending
    {
      var key :| key in pending;
      ghost var done := inbound.Keys - pending;
      CopiedStep(inbound, done, key);
      var lower := ToLower(key);
      if lower == "host" || lower == "connection" || lower == "keep-alive" {
      } else if lower == "accept-encoding" {
        out := Set(out, AcceptEncoding, PinnedEncoding);
      } else {
        out := AddAll(out, key, inbound[key]);
      }
      pending := pending - {key};
      assert inbound.Keys - pending == done + {key};
    }
    assert inbound.Keys - pending == inbound.Keys;
    if Get(out, UserAgent) == "" {
      out := Set(out, UserAgent, ProxyAgent);
    }
  }
}
