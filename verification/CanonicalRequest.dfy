/** AWS Signature Version 4 as the secret manager client computes it. */
module CanonicalRequest {
  import opened Text
  import opened Ordering

  const ALGORITHM := "AWS4-HMAC-SHA256"
  const SERVICE := "secretsmanager"
  const TERMINATION := "aws4_request"

  /** http.Header: any name may carry several values. */
  type Header = map<string, seq<string>>

  datatype Credentials = Credentials(accessKey: string, accessSecret: string, sessionToken: string)

  /** SHA-256 and HMAC-SHA-256, left uninterpreted. */
  datatype Hashes = Hashes(sha256: string -> string, hmac: (string, string) -> string)

  // ---- Library string functions (ASCII) ----------------------------------

  predicate IsSpace(c: char) {
    c == ' ' || '\t' <= c <= '\r'
  }

  function TrimLeft(s: string): string {
    if s != "" && IsSpace(s[0]) then TrimLeft(s[1..]) else s
  }

  function TrimRight(s: string): string {
    if s != "" && IsSpace(s[|s| - 1]) then TrimRight(s[..|s| - 1]) else s
  }

  function TrimSpace(s: string): string {
    TrimRight(TrimLeft(s))
  }

  function LowerChar(c: char): char {
    if 'A' <= c <= 'Z' then c - 'A' + 'a' else c
  }

  function ToLower(s: string): string {
    if s == "" then "" else [LowerChar(s[0])] + ToLower(s[1..])
  }

  // ---- The header map, read in some iteration order ------------------------

  /** One of the orders in which Go may iterate over the map: every name once. */
  ghost predicate IsOrder(order: seq<string>, header: Header)
    ensures IsOrder(order, header) ==> forall k :: k in order <==> k in header
  {
    assert forall k :: k in order <==> k in multiset(order);
    multiset(order) == multiset(header.Keys)
  }

  function ValueOf(values: seq<string>): string {
    TrimSpace(Join(values, ","))
  }

  function LowerNames(order: seq<string>): seq<string> {
    seq(|order|, i requires 0 <= i < |order| => ToLower(order[i]))
  }

  /** The map the loop fills: a later entry overwrites an earlier one of the same lower-case name. */
  function Collect(order: seq<string>, header: Header): map<string, string>
    requires forall k | k in order :: k in header
  {
    if order == [] then map[]
    else
      var last := order[|order| - 1];
      Collect(order[..|order| - 1], header)[ToLower(last) := ValueOf(header[last])]
  }

  lemma {:induction false} CollectKeys(order: seq<string>, header: Header, n: string)
    requires forall k | k in order :: k in header
    ensures n in Collect(order, header) <==> n in LowerNames(order)
  {
    if order != [] {
      var front, last := order[..|order| - 1], order[|order| - 1];
      CollectKeys(front, header, n);
      assert LowerNames(order) == LowerNames(front) + [ToLower(last)];
    }
  }

  /** Name and value of every canonical header, in the order they are written. */
  function Pairs(names: seq<string>, m: map<string, string>): seq<(string, string)>
    requires forall n | n in names :: n in m
  {
    seq(|names|, i requires 0 <= i < |names| => (names[i], m[names[i]]))
  }

  lemma LowerNamesIn(order: seq<string>, header: Header, names: seq<string>)
    requires forall k | k in order :: k in header
    requires multiset(names) == multiset(LowerNames(order))
    ensures forall n | n in names :: n in Collect(order, header)
  {
    forall n | n in names ensures n in Collect(order, header) {
      assert n in multiset(names);
      CollectKeys(order, header, n);
    }
  }

  function HeaderPairs(order: seq<string>, header: Header): seq<(string, string)>
    requires forall k | k in order :: k in header
  {
    var names := Sort(LowerNames(order));
    SortRearranges(LowerNames(order));
    LowerNamesIn(order, header, names);
    Pairs(names, Collect(order, header))
  }

  // ---- The canonical request -------------------------------------------------

  datatype Components = Components(verb: string, uri: string, query: string, headers: seq<(string, string)>, payloadHash: string)

  function Line(p: (string, string)): string {
    p.0 + ":" + p.1
  }

  function Block(headers: seq<(string, string)>): string {
    if headers == [] then ""
    else Block(headers[..|headers| - 1]) + (Line(headers[|headers| - 1]) + "\n")
  }

  function NamesOf(headers: seq<(string, string)>): seq<string> {
    seq(|headers|, i requires 0 <= i < |headers| => headers[i].0)
  }

  function SignedHeaders(headers: seq<(string, string)>): string {
    Join(NamesOf(headers), ";")
  }

  function Render(c: Components): string {
    c.verb + "\n" + c.uri + "\n" + c.query + "\n" + Block(c.headers) + "\n" + SignedHeaders(c.headers) + "\n" + c.payloadHash
  }

  function CanonicalUri(path: string): string {
    if path == "" then "/" else path
  }

  /** The parts of an HTTP request that the signature depends on. */
  datatype Message = Message(verb: string, path: string, query: string, header: Header, payloadHash: string)

  /** The message that signRequest signs: the payload enters as the hexadecimal text of its digest. */
  function MessageOf(verb: string, path: string, query: string, header: Header, payload: string, h: Hashes): Message {
    Message(verb, path, query, header, Hex(h.sha256(payload)))
  }

  function ComponentsOf(m: Message, order: seq<string>): Components
    requires forall k | k in order :: k in m.header
  {
    Components(m.verb, CanonicalUri(m.path), m.query, HeaderPairs(order, m.header), m.payloadHash)
  }

  // ---- signRequest -----------------------------------------------------------

  function Prepared(header: Header, host: string, amzDate: string, sessionToken: string): Header {
    var h := header["Host" := [host]]["X-Amz-Date" := [amzDate]]
                   ["X-Amz-Target" := ["secretsmanager.GetSecretValue"]]["Content-Type" := ["application/x-amz-json-1.1"]];
    if sessionToken == "" then h else h["X-Amz-Security-Token" := [sessionToken]]
  }

  function SigningKey(h: Hashes, secret: string, dateStamp: string, region: string): string {
    h.hmac(h.hmac(h.hmac(h.hmac("AWS4" + secret, dateStamp), region), SERVICE), TERMINATION)
  }

  function Scope(dateStamp: string, region: string): string {
    dateStamp + "/" + region + "/" + SERVICE + "/" + TERMINATION
  }

  function StringToSign(h: Hashes, region: string, amzDate: string, dateStamp: string, canonical: string): string {
    ALGORITHM + "\n" + amzDate + "\n" + Scope(dateStamp, region) + "\n" + Hex(h.sha256(canonical))
  }

  function Credential(creds: Credentials, scope: string): string {
    ALGORITHM + " Credential=" + creds.accessKey + "/" + scope
  }

  function Authorization(h: Hashes, creds: Credentials, region: string, amzDate: string, dateStamp: string, canonical: string, signed: string): string {
    Credential(creds, Scope(dateStamp, region)) + ", SignedHeaders=" + signed
      + ", Signature=" + Hex(h.hmac(SigningKey(h, creds.accessSecret, dateStamp, region), StringToSign(h, region, amzDate, dateStamp, canonical)))
  }

  class Request {
    var verb: string
    var path: string
    var rawQuery: string
    var urlHost: string
    var host: string
    var header: Header

    method Set(name: string, value: string)
      modifies this`header
      ensures header == old(header)[name := [value]]
    {
      header := header[name := [value]];
    }
  }

  lemma AppendToOrder(order: seq<string>, name: string, header: Header)
    requires (forall k | k in order :: k in header) && name in header
    ensures LowerNames(order + [name]) == LowerNames(order) + [ToLower(name)]
    ensures Collect(order + [name], header) == Collect(order, header)[ToLower(name) := ValueOf(header[name])]
  {
    assert (order + [name])[..|order|] == order;
  }

  /** The loop over the header map: names are appended and values filed under their lower-case name. */
  method CollectHeaders(header: Header) returns (names: seq<string>, values: map<string, string>, ghost order: seq<string>)
    ensures IsOrder(order, header) && names == LowerNames(order) && values == Collect(order, header)
  {
    names, values, order := [], map[], [];
    var left := header.Keys;
    while left != {}
      invariant left <= header.Keys
      invariant multiset(order) == multiset(header.Keys - left)
      invariant forall k | k in order :: k in header
      invariant names == LowerNames(order) && values == Collect(order, header)
      decreases left
    {
      var name :| name in left;
      assert header.Keys - (left - {name}) == header.Keys - left + {name};
      left := left - {name};
      var lowerName := ToLower(name);
      names := names + [lowerName];
      values := values[lowerName := TrimSpace(Join(header[name], ","))];
      AppendToOrder(order, name, header);
      order := order + [name];
    }
    assert header.Keys - left == header.Keys;
  }

  /** The builder loop over the sorted names. */
  method WriteHeaders(names: seq<string>, values: map<string, string>) returns (text: string)
    requires forall n | n in names :: n in values
    ensures text == Block(Pairs(names, values))
  {
    text := "";
    for i := 0 to |names|
      invariant text == Block(Pairs(names, values)[..i])
    {
      assert Pairs(names, values)[..i + 1][..i] == Pairs(names, values)[..i];
      text := text + (names[i] + ":" + values[names[i]] + "\n");
    }
    assert Pairs(names, values)[..|names|] == Pairs(names, values);
  }

  /** The canonical request of a message whose header map is iterated in an arbitrary order. */
  method CreateCanonicalRequest(m: Message) returns (canonicalRequest: string, signedHeaders: string, ghost order: seq<string>)
    ensures IsOrder(order, m.header)
    ensures canonicalRequest == Render(ComponentsOf(m, order))
    ensures signedHeaders == SignedHeaders(ComponentsOf(m, order).headers)
  {
    var canonicalUri := m.path;
    if canonicalUri == "" {
      canonicalUri := "/";
    }
    var headerNames, headerMap;
    headerNames, headerMap, order := CollectHeaders(m.header);
    SortRearranges(headerNames);
    headerNames := Sort(headerNames);
    LowerNamesIn(order, m.header, headerNames);
    var canonicalHeaders := WriteHeaders(headerNames, headerMap);
    signedHeaders := Join(headerNames, ";");
    assert NamesOf(Pairs(headerNames, headerMap)) == headerNames;
    canonicalRequest := m.verb + "\n" + canonicalUri + "\n" + m.query + "\n" + canonicalHeaders + "\n" + signedHeaders + "\n" + m.payloadHash;
  }

  /** The header after signing, when the map was iterated in this order. */
  function SignedBy(m: Message, order: seq<string>, h: Hashes, creds: Credentials, region: string, amzDate: string, dateStamp: string): Header
    requires forall k | k in order :: k in m.header
  {
    var c := ComponentsOf(m, order);
    m.header["Authorization" := [Authorization(h, creds, region, amzDate, dateStamp, Render(c), SignedHeaders(c.headers))]]
  }

  /** The headers that are set before the canonical request is built. */
  method PrepareHeaders(req: Request, amzDate: string, sessionToken: string)
    modifies req`header
    ensures req.header == Prepared(old(req.header), if req.urlHost == "" then req.host else req.urlHost, amzDate, sessionToken)
  {
    var host := req.urlHost;
    if host == "" {
      host := req.host;
    }
    req.Set("Host", host);
    req.Set("X-Amz-Date", amzDate);
    req.Set("X-Amz-Target", "secretsmanager.GetSecretValue");
    req.Set("Content-Type", "application/x-amz-json-1.1");
    if sessionToken != "" {
      req.Set("X-Amz-Security-Token", sessionToken);
    }
  }

  /** The scope, the string to sign and the signature over it. */
  method WriteAuthorization(h: Hashes, creds: Credentials, region: string, amzDate: string, dateStamp: string, canonicalRequest: string, signedHeaders: string)
    returns (header: string)
    ensures header == Authorization(h, creds, region, amzDate, dateStamp, canonicalRequest, signedHeaders)
  {
    var credentialScope := dateStamp + "/" + region + "/" + SERVICE + "/" + TERMINATION;
    var stringToSign := ALGORITHM + "\n" + amzDate + "\n" + credentialScope + "\n" + Hex(h.sha256(canonicalRequest));
    var signingKey := SigningKey(h, creds.accessSecret, dateStamp, region);
    var signature := Hex(h.hmac(signingKey, stringToSign));
    header := ALGORITHM + " Credential=" + creds.accessKey + "/" + credentialScope
      + ", SignedHeaders=" + signedHeaders + ", Signature=" + signature;
  }

  method SignRequest(req: Request, payload: string, h: Hashes, creds: Credentials, region: string, amzDate: string, dateStamp: string)
    returns (ghost order: seq<string>)
    modifies req`header
    ensures var host := if req.urlHost == "" then req.host else req.urlHost;
            var prepared := Prepared(old(req.header), host, amzDate, creds.sessionToken);
            var m := MessageOf(req.verb, req.path, req.rawQuery, prepared, payload, h);
            IsOrder(order, prepared) && req.header == SignedBy(m, order, h, creds, region, amzDate, dateStamp)
  {
    PrepareHeaders(req, amzDate, creds.sessionToken);
    var canonicalRequest, signedHeaders;
    canonicalRequest, signedHeaders, order :=
      CreateCanonicalRequest(MessageOf(req.verb, req.path, req.rawQuery, req.header, payload, h));

    var authorizationHeader := WriteAuthorization(h, creds, region, amzDate, dateStamp, canonicalRequest, signedHeaders);
    req.Set("Authorization", authorizationHeader);
  }

  // ---- Independence of the iteration order -------------------------------------

  predicate Clash(header: Header, k: string, k': string) {
    k in header && k' in header && ToLower(k) == ToLower(k') && ValueOf(header[k]) != ValueOf(header[k'])
  }

  /** Names that differ only in case carry the same value. */
  ghost predicate NoClash(header: Header) {
    forall k, k' :: !Clash(header, k, k')
  }

  lemma RemoveOne(a: seq<string>, j: nat)
    requires j < |a|
    ensures multiset(LowerNames(a)) == multiset(LowerNames(a[..j] + a[j + 1..])) + multiset{ToLower(a[j])}
  {
    assert a == a[..j] + [a[j]] + a[j + 1..];
    var front, back := LowerNames(a[..j]), LowerNames(a[j + 1..]);
    assert LowerNames(a) == front + [ToLower(a[j])] + back;
    assert LowerNames(a[..j] + a[j + 1..]) == front + back;
  }

  lemma RemoveHead(a: seq<string>)
    requires a != []
    ensures multiset(LowerNames(a)) == multiset(LowerNames(a[1..])) + multiset{ToLower(a[0])}
  {
    assert LowerNames(a) == [ToLower(a[0])] + LowerNames(a[1..]);
  }

  lemma Without(a: seq<string>, j: nat)
    requires j < |a|
    ensures multiset(a[..j] + a[j + 1..]) == multiset(a) - multiset{a[j]}
  {
    var front, back := a[..j], a[j + 1..];
    assert a == front + [a[j]] + back;
    assert multiset(a) == multiset(front) + multiset{a[j]} + multiset(back);
  }

  lemma WithoutHead(a: seq<string>)
    requires a != []
    ensures multiset(a[1..]) == multiset(a) - multiset{a[0]}
  {
    assert a == [a[0]] + a[1..];
  }

  lemma IndexIn(b: seq<string>, x: string) returns (j: nat)
    requires x in multiset(b)
    ensures j < |b| && b[j] == x
  {
    j :| 0 <= j < |b| && b[j] == x;
  }

  lemma RemoveSame(a: seq<string>, b: seq<string>) returns (j: nat)
    requires a != [] && multiset(a) == multiset(b)
    ensures j < |b| && b[j] == a[0] && multiset(a[1..]) == multiset(b[..j] + b[j + 1..])
  {
    assert a[0] in multiset(a);
    j := IndexIn(b, a[0]);
    WithoutHead(a);
    Without(b, j);
  }

  lemma {:induction false} LowerNamesRearranged(a: seq<string>, b: seq<string>)
    requires multiset(a) == multiset(b)
    ensures multiset(LowerNames(a)) == multiset(LowerNames(b))
  {
    if a == [] {
      assert |b| == |multiset(b)| == |multiset(a)|;
    } else {
      var j := RemoveSame(a, b);
      LowerNamesRearranged(a[1..], b[..j] + b[j + 1..]);
      RemoveHead(a);
      RemoveOne(b, j);
    }
  }

  lemma SameNames(a: seq<string>, b: seq<string>, header: Header)
    requires IsOrder(a, header) && IsOrder(b, header)
    ensures Sort(LowerNames(a)) == Sort(LowerNames(b))
  {
    LowerNamesRearranged(a, b);
    SortUnique(LowerNames(a), LowerNames(b));
  }

  lemma {:induction false} CollectValue(order: seq<string>, header: Header, k: string)
    requires NoClash(header) && forall x | x in order :: x in header
    requires k in order
    ensures ToLower(k) in Collect(order, header)
    ensures Collect(order, header)[ToLower(k)] == ValueOf(header[k])
  {
    var last := order[|order| - 1];
    var front := order[..|order| - 1];
    assert !Clash(header, last, k);
    if ToLower(last) != ToLower(k) {
      assert k in front;
      CollectValue(front, header, k);
    }
  }

  lemma CollectAgrees(a: seq<string>, b: seq<string>, header: Header, n: string)
    requires IsOrder(a, header) && IsOrder(b, header) && NoClash(header)
    requires n in Collect(a, header)
    ensures n in Collect(b, header) && Collect(a, header)[n] == Collect(b, header)[n]
  {
    CollectKeys(a, header, n);
    var i :| 0 <= i < |LowerNames(a)| && LowerNames(a)[i] == n;
    var k := a[i];
    assert k in a && k in b;
    CollectValue(a, header, k);
    CollectValue(b, header, k);
  }

  lemma CollectSame(a: seq<string>, b: seq<string>, header: Header)
    requires IsOrder(a, header) && IsOrder(b, header) && NoClash(header)
    ensures Collect(a, header) == Collect(b, header)
  {
    var ca, cb := Collect(a, header), Collect(b, header);
    forall n ensures n in ca ==> n in cb && ca[n] == cb[n] {
      if n in ca {
        CollectAgrees(a, b, header, n);
      }
    }
    forall n ensures n in cb ==> n in ca {
      if n in cb {
        CollectAgrees(b, a, header, n);
      }
    }
  }

  lemma NoClashSamePairs(a: seq<string>, b: seq<string>, header: Header)
    requires IsOrder(a, header) && IsOrder(b, header) && NoClash(header)
    ensures HeaderPairs(a, header) == HeaderPairs(b, header)
  {
    SameNames(a, b, header);
    CollectSame(a, b, header);
  }

  lemma {:induction false} Enumerate(keys: set<string>) returns (order: seq<string>)
    ensures multiset(order) == multiset(keys)
  {
    if keys == {} {
      order := [];
    } else {
      var k :| k in keys;
      var rest := Enumerate(keys - {k});
      order := [k] + rest;
    }
  }

  /** A longer value at some name makes a longer block; values of equal length show up in place. */
  lemma {:induction false} BlockShows(a: seq<(string, string)>, b: seq<(string, string)>, n: string, v: string, w: string)
    requires |a| == |b| && |v| <= |w|
    requires forall i | 0 <= i < |a| :: a[i].0 == b[i].0
    requires forall i | 0 <= i < |a| :: if a[i].0 == n then a[i].1 == v && b[i].1 == w else a[i].1 == b[i].1
    ensures |Block(a)| <= |Block(b)|
    ensures (exists i :: 0 <= i < |a| && a[i].0 == n) && |v| < |w| ==> |Block(a)| < |Block(b)|
    ensures |v| == |w| ==> |Block(a)| == |Block(b)|
    ensures (exists i :: 0 <= i < |a| && a[i].0 == n) && Block(a) == Block(b) ==> v == w
  {
    if a != [] {
      var m := |a| - 1;
      BlockShows(a[..m], b[..m], n, v, w);
      var la, lb := Line(a[m]) + "\n", Line(b[m]) + "\n";
      if (exists i :: 0 <= i < |a| && a[i].0 == n) && a[m].0 != n {
        var i :| 0 <= i < |a| && a[i].0 == n;
        assert a[..m][i].0 == n;
      }
      if |v| == |w| && Block(a) == Block(b) {
        assert Block(a)[..|Block(a[..m])|] == Block(a[..m]);
        assert Block(b)[..|Block(b[..m])|] == Block(b[..m]);
        assert Block(a)[|Block(a[..m])|..] == la;
        assert Block(b)[|Block(b[..m])|..] == lb;
        if a[m].0 == n {
          assert la[|n| + 1..|n| + 1 + |v|] == v;
          assert lb[|n| + 1..|n| + 1 + |w|] == w;
        }
      }
    }
  }

  lemma RenderSameBlock(c: Components, d: Components)
    requires Render(c) == Render(d)
    requires c.verb == d.verb && c.uri == d.uri && c.query == d.query && c.payloadHash == d.payloadHash
    requires SignedHeaders(c.headers) == SignedHeaders(d.headers)
    ensures Block(c.headers) == Block(d.headers)
  {
    var front := c.verb + "\n" + c.uri + "\n" + c.query + "\n";
    var back := "\n" + SignedHeaders(c.headers) + "\n" + c.payloadHash;
    assert Render(c) == front + Block(c.headers) + back;
    assert Render(d) == front + Block(d.headers) + back;
    assert |Block(c.headers)| == |Block(d.headers)|;
    assert Render(c)[|front|..|front| + |Block(c.headers)|] == Block(c.headers);
    assert Render(d)[|front|..|front| + |Block(d.headers)|] == Block(d.headers);
  }

  lemma KeysEndingWith(header: Header, rest: seq<string>, k: string, k': string)
    requires k in header && k' in header && k != k'
    requires multiset(rest) == multiset(header.Keys - {k, k'})
    ensures IsOrder(rest + [k'] + [k], header)
    ensures forall x | x in rest :: x in header
  {
    assert header.Keys == header.Keys - {k, k'} + {k'} + {k};
    assert multiset(header.Keys) == multiset(header.Keys - {k, k'}) + multiset{k'} + multiset{k};
    forall x | x in rest ensures x in header {
      assert x in multiset(rest);
    }
  }

  lemma CollectEndingWith(header: Header, rest: seq<string>, k: string, k': string)
    requires k in header && k' in header && ToLower(k) == ToLower(k')
    requires forall x | x in rest :: x in header
    ensures Collect(rest + [k'] + [k], header) == Collect(rest, header)[ToLower(k) := ValueOf(header[k])]
  {
    AppendToOrder(rest, k', header);
    AppendToOrder(rest + [k'], k, header);
  }

  lemma ClashOrders(header: Header, k: string, k': string) returns (a: seq<string>, b: seq<string>)
    requires Clash(header, k, k')
    ensures IsOrder(a, header) && IsOrder(b, header)
    ensures Collect(a, header) == Collect(b, header)[ToLower(k) := ValueOf(header[k])]
    ensures ToLower(k) in Collect(b, header) && Collect(b, header)[ToLower(k)] == ValueOf(header[k'])
  {
    var rest := Enumerate(header.Keys - {k, k'});
    KeysEndingWith(header, rest, k, k');
    assert header.Keys - {k, k'} == header.Keys - {k', k};
    KeysEndingWith(header, rest, k', k);
    CollectEndingWith(header, rest, k, k');
    CollectEndingWith(header, rest, k', k);
    var m := Collect(rest, header);
    a, b := rest + [k'] + [k], rest + [k] + [k'];
    assert m[ToLower(k) := ValueOf(header[k'])][ToLower(k) := ValueOf(header[k])] == m[ToLower(k) := ValueOf(header[k])];
  }

  lemma NameAppears(order: seq<string>, header: Header, k: string) returns (i: nat)
    requires k in order && forall x | x in order :: x in header
    ensures i < |HeaderPairs(order, header)| && HeaderPairs(order, header)[i].0 == ToLower(k)
  {
    var names := Sort(LowerNames(order));
    SortRearranges(LowerNames(order));
    var j :| 0 <= j < |order| && order[j] == k;
    assert LowerNames(order)[j] == ToLower(k);
    assert ToLower(k) in multiset(LowerNames(order));
    assert ToLower(k) in multiset(names);
    i :| 0 <= i < |names| && names[i] == ToLower(k);
  }

  lemma PairsDiffering(a: seq<string>, b: seq<string>, header: Header, n: string, v: string)
    requires IsOrder(a, header) && IsOrder(b, header)
    requires n in Collect(b, header) && Collect(a, header) == Collect(b, header)[n := v]
    ensures var pa, pb := HeaderPairs(a, header), HeaderPairs(b, header);
            && |pa| == |pb|
            && (forall i | 0 <= i < |pa| :: pa[i].0 == pb[i].0)
            && (forall i | 0 <= i < |pa| :: if pa[i].0 == n then pa[i].1 == v && pb[i].1 == Collect(b, header)[n] else pa[i].1 == pb[i].1)
  {
    SameNames(a, b, header);
    var names := Sort(LowerNames(a));
    SortRearranges(LowerNames(a));
    SortRearranges(LowerNames(b));
    LowerNamesIn(a, header, names);
    LowerNamesIn(b, header, names);
  }

  lemma ClashBlocks(a: seq<string>, b: seq<string>, header: Header, k: string, v: string)
    requires IsOrder(a, header) && IsOrder(b, header) && k in header
    requires ToLower(k) in Collect(b, header) && Collect(a, header) == Collect(b, header)[ToLower(k) := v]
    requires v != Collect(b, header)[ToLower(k)]
    ensures SignedHeaders(HeaderPairs(a, header)) == SignedHeaders(HeaderPairs(b, header))
    ensures Block(HeaderPairs(a, header)) != Block(HeaderPairs(b, header))
  {
    var n := ToLower(k);
    var w := Collect(b, header)[n];
    PairsDiffering(a, b, header, n, v);
    var pa, pb := HeaderPairs(a, header), HeaderPairs(b, header);
    assert NamesOf(pa) == NamesOf(pb);
    var i := NameAppears(a, header, k);
    assert pb[i].0 == n;
    if |v| <= |w| {
      BlockShows(pa, pb, n, v, w);
    } else {
      BlockShows(pb, pa, n, w, v);
    }
  }

  /** Two names that differ in case only, with different values, make the signature depend on the order. */
  lemma ClashDistinguishes(m: Message, k: string, k': string)
    requires Clash(m.header, k, k')
    ensures exists a, b :: IsOrder(a, m.header) && IsOrder(b, m.header) && Render(ComponentsOf(m, a)) != Render(ComponentsOf(m, b))
  {
    var a, b := ClashOrders(m.header, k, k');
    ClashBlocks(a, b, m.header, k, ValueOf(m.header[k]));
    if Render(ComponentsOf(m, a)) == Render(ComponentsOf(m, b)) {
      RenderSameBlock(ComponentsOf(m, a), ComponentsOf(m, b));
    }
  }

  /**
   * The canonical request is the same for every iteration order of the header map exactly when
   * names that differ only in case carry the same value.
   */
  lemma OrderIndependent(m: Message)
    ensures (forall a, b | IsOrder(a, m.header) && IsOrder(b, m.header) :: Render(ComponentsOf(m, a)) == Render(ComponentsOf(m, b)))
            <==> NoClash(m.header)
  {
    if NoClash(m.header) {
      forall a, b | IsOrder(a, m.header) && IsOrder(b, m.header)
        ensures Render(ComponentsOf(m, a)) == Render(ComponentsOf(m, b))
      {
        NoClashSamePairs(a, b, m.header);
      }
    } else {
      var k, k' :| Clash(m.header, k, k');
      ClashDistinguishes(m, k, k');
    }
  }

  /** Under that condition the whole signed header, with its signature, is determined. */
  lemma SignatureDeterministic(m: Message, a: seq<string>, b: seq<string>, h: Hashes, creds: Credentials, region: string, amzDate: string, dateStamp: string)
    requires NoClash(m.header) && IsOrder(a, m.header) && IsOrder(b, m.header)
    ensures SignedBy(m, a, h, creds, region, amzDate, dateStamp) == SignedBy(m, b, h, creds, region, amzDate, dateStamp)
  {
    NoClashSamePairs(a, b, m.header);
  }

  // ---- What is signed ------------------------------------------------------------

  ghost predicate DistinctNames(header: Header) {
    forall k, k' | k in header && k' in header && ToLower(k) == ToLower(k') :: k == k'
  }

  lemma LowersCover(order: seq<string>, header: Header)
    requires IsOrder(order, header)
    ensures forall n :: n in LowerNames(order) <==> exists k :: k in header && ToLower(k) == n
  {
    var lowers := LowerNames(order);
    forall n ensures n in lowers <==> exists k :: k in header && ToLower(k) == n {
      if n in lowers {
        var i :| 0 <= i < |lowers| && lowers[i] == n;
        assert order[i] in header && ToLower(order[i]) == n;
      }
      if k :| k in header && ToLower(k) == n {
        var i :| 0 <= i < |order| && order[i] == k;
        assert lowers[i] == n;
      }
    }
  }

  lemma LowersDistinct(order: seq<string>, header: Header)
    requires IsOrder(order, header)
    ensures NoDuplicates(LowerNames(order)) <==> DistinctNames(header)
  {
    var lowers := LowerNames(order);
    NoDuplicatesCounts(order);
    assert NoDuplicates(order);
    if NoDuplicates(lowers) {
      forall k, k' | k in header && k' in header && ToLower(k) == ToLower(k') ensures k == k' {
        var i :| 0 <= i < |order| && order[i] == k;
        var j :| 0 <= j < |order| && order[j] == k';
        assert lowers[i] == lowers[j];
      }
    }
    if DistinctNames(header) {
      forall i, j | 0 <= i < j < |lowers| ensures lowers[i] != lowers[j] {
        assert order[i] in order && order[j] in order;
      }
    }
  }

  lemma SameMembers(a: seq<string>, b: seq<string>)
    requires multiset(a) == multiset(b)
    ensures forall n :: n in a <==> n in b
  {
    forall n ensures n in a <==> n in b {
      assert n in a <==> n in multiset(a);
      assert n in b <==> n in multiset(b);
    }
  }

  /**
   * The signed-header list covers the lower-cased names of the request and nothing else, in order;
   * it repeats no name exactly when no two names differ only in case.
   */
  lemma SignedNames(order: seq<string>, header: Header)
    requires IsOrder(order, header)
    ensures var names := NamesOf(HeaderPairs(order, header));
            && Sorted(names)
            && (forall n :: n in names <==> exists k :: k in header && ToLower(k) == n)
            && (StrictlyAscending(names) <==> DistinctNames(header))
  {
    var lowers := LowerNames(order);
    var names := Sort(lowers);
    assert NamesOf(HeaderPairs(order, header)) == names;
    SortSorts(lowers);
    SortRearranges(lowers);
    SortStrict(lowers);
    LowersCover(order, header);
    LowersDistinct(order, header);
    SameMembers(names, lowers);
  }

  // ---- Injectivity -----------------------------------------------------------------

  /** No component contains the separator that ends it. */
  predicate WellFormed(c: Components) {
    && Free(c.verb, '\n') && Free(c.uri, '\n') && Free(c.query, '\n') && Free(c.payloadHash, '\n')
    && forall i | 0 <= i < |c.headers| ::
         Free(c.headers[i].0, '\n') && Free(c.headers[i].0, ':') && Free(c.headers[i].1, '\n')
  }

  function Lines(headers: seq<(string, string)>): seq<string> {
    seq(|headers|, i requires 0 <= i < |headers| => Line(headers[i]))
  }

  function Fields(c: Components): seq<string> {
    [c.verb, c.uri, c.query] + Lines(c.headers) + ["", SignedHeaders(c.headers), c.payloadHash]
  }

  lemma {:induction false} BlockIsJoin(headers: seq<(string, string)>)
    ensures Block(headers) == Join(Lines(headers) + [""], "\n")
  {
    if headers == [] {
      assert Lines(headers) + [""] == [""];
    } else {
      var m := |headers| - 1;
      BlockIsJoin(headers[..m]);
      var front, last := Lines(headers[..m]), Line(headers[m]);
      assert Lines(headers) + [""] == front + [last, ""];
      assert [last, ""][1..] == [""];
      assert Join([last, ""], "\n") == last + "\n";
      if front == [] {
        assert front + [last, ""] == [last, ""];
        assert Block(headers[..m]) == "";
      } else {
        JoinAppend(front, [last, ""], "\n");
        JoinAppend(front, [""], "\n");
        assert Join(front + [last, ""], "\n") == Join(front, "\n") + "\n" + (last + "\n");
      }
    }
  }

  lemma JoinThree(a: string, b: string, c: string)
    ensures Join([a, b, c], "\n") == a + "\n" + (b + "\n" + c)
    ensures Join([b, c], "\n") == b + "\n" + c
  {
    assert [b, c][1..] == [c];
    assert Join([b, c], "\n") == b + "\n" + c;
    assert [a, b, c][1..] == [b, c];
  }

  lemma RenderNested(c: Components)
    ensures Render(c) == (c.verb + "\n" + (c.uri + "\n" + c.query)) + "\n" +
                         (Block(c.headers) + "\n" + (SignedHeaders(c.headers) + "\n" + c.payloadHash))
  {
    var block, signed := Block(c.headers), SignedHeaders(c.headers);
    var front := c.verb + "\n" + c.uri + "\n" + c.query;
    assert front == c.verb + "\n" + (c.uri + "\n" + c.query);
  }

  lemma RenderIsJoin(c: Components)
    ensures Render(c) == Join(Fields(c), "\n")
  {
    var signed := SignedHeaders(c.headers);
    var head, mid, tail := [c.verb, c.uri, c.query], Lines(c.headers) + [""], [signed, c.payloadHash];
    assert Fields(c) == head + (mid + tail);
    JoinAppend(head, mid + tail, "\n");
    JoinAppend(mid, tail, "\n");
    BlockIsJoin(c.headers);
    JoinThree(c.verb, c.uri, c.query);
    JoinThree("", signed, c.payloadHash);
    RenderNested(c);
  }

  lemma {:induction false} JoinFree(parts: seq<string>, sep: string, c: char)
    requires Free(sep, c) && forall i | 0 <= i < |parts| :: Free(parts[i], c)
    ensures Free(Join(parts, sep), c)
  {
    if |parts| > 1 {
      JoinFree(parts[1..], sep, c);
    }
  }

  lemma FieldsFree(c: Components)
    requires WellFormed(c)
    ensures forall i | 0 <= i < |Fields(c)| :: Free(Fields(c)[i], '\n')
  {
    JoinFree(NamesOf(c.headers), ";", '\n');
    forall i | 0 <= i < |c.headers| ensures Free(Lines(c.headers)[i], '\n') {
    }
  }

  lemma LineInjective(p: (string, string), q: (string, string))
    requires Free(p.0, ':') && Free(q.0, ':') && Line(p) == Line(q)
    ensures p == q
  {
    SplitPrefix(p.0, p.1, ':');
    SplitPrefix(q.0, q.1, ':');
    assert Split(Line(p), ':')[0] == p.0 && Split(Line(q), ':')[0] == q.0;
    assert p.1 == Line(p)[|p.0| + 1..] && q.1 == Line(q)[|q.0| + 1..];
  }

  lemma FieldsInjective(c: Components, d: Components)
    requires Fields(c) == Fields(d)
    requires forall i | 0 <= i < |c.headers| :: Free(c.headers[i].0, ':')
    requires forall i | 0 <= i < |d.headers| :: Free(d.headers[i].0, ':')
    ensures c == d
  {
    var f, g := Fields(c), Fields(d);
    assert |c.headers| == |f| - 6 == |d.headers|;
    assert f[0] == c.verb && f[1] == c.uri && f[2] == c.query && f[|f| - 1] == c.payloadHash;
    assert g[0] == d.verb && g[1] == d.uri && g[2] == d.query && g[|g| - 1] == d.payloadHash;
    forall i | 0 <= i < |c.headers| ensures c.headers[i] == d.headers[i] {
      assert f[i + 3] == Line(c.headers[i]) && g[i + 3] == Line(d.headers[i]);
      LineInjective(c.headers[i], d.headers[i]);
    }
  }

  /** The canonical request says everything about what was signed. */
  lemma CanonicalInjective(c: Components, d: Components)
    requires WellFormed(c) && WellFormed(d)
    ensures Render(c) == Render(d) <==> c == d
  {
    if Render(c) == Render(d) {
      RenderIsJoin(c);
      RenderIsJoin(d);
      FieldsFree(c);
      FieldsFree(d);
      SplitJoin(Fields(c), '\n');
      SplitJoin(Fields(d), '\n');
      FieldsInjective(c, d);
    }
  }

  /** The lower-case view of a header: what the signature covers. */
  ghost predicate ViewOf(view: map<string, string>, header: Header) {
    && (forall k | k in header :: ToLower(k) in view && view[ToLower(k)] == ValueOf(header[k]))
    && (forall n | n in view :: exists k :: k in header && ToLower(k) == n)
  }

  /** The pairs are the entries of the view. */
  ghost predicate Lists(pairs: seq<(string, string)>, view: map<string, string>) {
    && (forall i | 0 <= i < |pairs| :: pairs[i].0 in view && view[pairs[i].0] == pairs[i].1)
    && (forall n | n in view :: exists i :: 0 <= i < |pairs| && pairs[i].0 == n)
  }

  lemma ListedView(pairs: seq<(string, string)>, view: map<string, string>, view': map<string, string>)
    requires Lists(pairs, view) && Lists(pairs, view')
    ensures forall n | n in view :: n in view' && view[n] == view'[n]
  {
    forall n | n in view ensures n in view' && view[n] == view'[n] {
      var i :| 0 <= i < |pairs| && pairs[i].0 == n;
    }
  }

  lemma ListedViews(pairs: seq<(string, string)>, view: map<string, string>, view': map<string, string>)
    requires Lists(pairs, view) && Lists(pairs, view')
    ensures view == view'
  {
    ListedView(pairs, view, view');
    ListedView(pairs, view', view);
  }

  lemma ListedNames(pairs: seq<(string, string)>, view: map<string, string>, n: string)
    requires Lists(pairs, view)
    ensures n in NamesOf(pairs) <==> n in view
  {
    if n in NamesOf(pairs) {
      var i :| 0 <= i < |NamesOf(pairs)| && NamesOf(pairs)[i] == n;
      assert pairs[i].0 == n;
    }
    if n in view {
      var i :| 0 <= i < |pairs| && pairs[i].0 == n;
      assert NamesOf(pairs)[i] == n;
    }
  }

  lemma ListedPairs(p: seq<(string, string)>, q: seq<(string, string)>, view: map<string, string>)
    requires Lists(p, view) && Lists(q, view)
    requires StrictlyAscending(NamesOf(p)) && StrictlyAscending(NamesOf(q))
    ensures p == q
  {
    forall n ensures n in NamesOf(p) <==> n in NamesOf(q) {
      ListedNames(p, view, n);
      ListedNames(q, view, n);
    }
    SameElements(NamesOf(p), NamesOf(q));
    SortedUnique(NamesOf(p), NamesOf(q));
    assert |p| == |NamesOf(p)| == |NamesOf(q)| == |q|;
    forall i | 0 <= i < |p| ensures p[i] == q[i] {
      assert p[i].0 == NamesOf(p)[i] == NamesOf(q)[i] == q[i].0;
    }
  }

  lemma PairInView(order: seq<string>, header: Header, view: map<string, string>, i: nat)
    requires IsOrder(order, header) && ViewOf(view, header)
    requires i < |HeaderPairs(order, header)|
    ensures HeaderPairs(order, header)[i].0 in view && view[HeaderPairs(order, header)[i].0] == HeaderPairs(order, header)[i].1
  {
    var names := NamesOf(HeaderPairs(order, header));
    SignedNames(order, header);
    assert names[i] in names;
    var k :| k in header && ToLower(k) == names[i];
    CollectValue(order, header, k);
  }

  lemma HeaderPairsList(order: seq<string>, header: Header, view: map<string, string>)
    requires IsOrder(order, header) && ViewOf(view, header)
    ensures Lists(HeaderPairs(order, header), view)
  {
    var pairs := HeaderPairs(order, header);
    forall i | 0 <= i < |pairs| ensures pairs[i].0 in view && view[pairs[i].0] == pairs[i].1 {
      PairInView(order, header, view, i);
    }
    forall n | n in view ensures exists i :: 0 <= i < |pairs| && pairs[i].0 == n {
      var k :| k in header && ToLower(k) == n;
      var i := NameAppears(order, header, k);
    }
  }

  lemma ListedEqual(p: seq<(string, string)>, view: map<string, string>, q: seq<(string, string)>, view': map<string, string>)
    requires Lists(p, view) && StrictlyAscending(NamesOf(p))
    requires Lists(q, view') && StrictlyAscending(NamesOf(q))
    ensures p == q <==> view == view'
  {
    if view == view' {
      ListedPairs(p, q, view);
    }
    if p == q {
      ListedViews(p, view, view');
    }
  }

  lemma HeaderPairsAscend(order: seq<string>, header: Header, view: map<string, string>)
    requires IsOrder(order, header) && ViewOf(view, header) && DistinctNames(header)
    ensures Lists(HeaderPairs(order, header), view) && StrictlyAscending(NamesOf(HeaderPairs(order, header)))
  {
    HeaderPairsList(order, header, view);
    SignedNames(order, header);
  }

  /** Two headers are written the same way exactly when their lower-case views agree. */
  lemma SamePairs(header: Header, order: seq<string>, view: map<string, string>, header': Header, order': seq<string>, view': map<string, string>)
    requires IsOrder(order, header) && ViewOf(view, header) && DistinctNames(header)
    requires IsOrder(order', header') && ViewOf(view', header') && DistinctNames(header')
    ensures HeaderPairs(order, header) == HeaderPairs(order', header') <==> view == view'
  {
    HeaderPairsAscend(order, header, view);
    HeaderPairsAscend(order', header', view');
    ListedEqual(HeaderPairs(order, header), view, HeaderPairs(order', header'), view');
  }

  /**
   * Two requests have the same canonical request exactly when they agree on verb, path (an empty
   * one reads "/"), query, payload hash and on the value of every lower-cased header.
   */
  lemma SameCanonicalRequest(m: Message, order: seq<string>, view: map<string, string>, m': Message, order': seq<string>, view': map<string, string>)
    requires IsOrder(order, m.header) && ViewOf(view, m.header) && DistinctNames(m.header)
    requires IsOrder(order', m'.header) && ViewOf(view', m'.header) && DistinctNames(m'.header)
    requires WellFormed(ComponentsOf(m, order)) && WellFormed(ComponentsOf(m', order'))
    ensures Render(ComponentsOf(m, order)) == Render(ComponentsOf(m', order'))
            <==> && m.verb == m'.verb && CanonicalUri(m.path) == CanonicalUri(m'.path) && m.query == m'.query
                 && m.payloadHash == m'.payloadHash && view == view'
  {
    CanonicalInjective(ComponentsOf(m, order), ComponentsOf(m', order'));
    SamePairs(m.header, order, view, m'.header, order', view');
  }

  /** Separators in the request itself, which the caller can look for. */
  predicate PlainRequest(verb: string, path: string, query: string, view: map<string, string>) {
    && Free(verb, '\n') && Free(path, '\n') && Free(query, '\n')
    && forall n | n in view :: Free(n, '\n') && Free(n, ':') && Free(view[n], '\n')
  }

  lemma PlainIsWellFormed(m: Message, order: seq<string>, view: map<string, string>)
    requires (forall k | k in order :: k in m.header) && Lists(HeaderPairs(order, m.header), view)
    requires PlainRequest(m.verb, m.path, m.query, view) && Free(m.payloadHash, '\n')
    ensures WellFormed(ComponentsOf(m, order))
  {
  }

  /**
   * The same for what signRequest signs: without separators in the two requests, their canonical
   * requests are equal exactly when verb, path, query, payload digest and lower-cased headers are.
   */
  lemma SameSignedRequest(
      verb: string, path: string, query: string, header: Header, payload: string, order: seq<string>, view: map<string, string>,
      verb': string, path': string, query': string, header': Header, payload': string, order': seq<string>, view': map<string, string>,
      h: Hashes)
    requires IsOrder(order, header) && ViewOf(view, header) && DistinctNames(header) && PlainRequest(verb, path, query, view)
    requires IsOrder(order', header') && ViewOf(view', header') && DistinctNames(header') && PlainRequest(verb', path', query', view')
    ensures Render(ComponentsOf(MessageOf(verb, path, query, header, payload, h), order))
              == Render(ComponentsOf(MessageOf(verb', path', query', header', payload', h), order'))
            <==> && verb == verb' && CanonicalUri(path) == CanonicalUri(path') && query == query'
                 && Hex(h.sha256(payload)) == Hex(h.sha256(payload')) && view == view'
  {
    HexPlain(h.sha256(payload));
    HexPlain(h.sha256(payload'));
    var m, m' := MessageOf(verb, path, query, header, payload, h), MessageOf(verb', path', query', header', payload', h);
    HeaderPairsList(order, header, view);
    HeaderPairsList(order', header', view');
    PlainIsWellFormed(m, order, view);
    PlainIsWellFormed(m', order', view');
    SameCanonicalRequest(m, order, view, m', order', view');
  }

  // ---- What the parts of a signed request say, in the terms of Signature Version 4 -----------

  /** The canonical request splits into these lines, in this order. */
  lemma RenderLayout(c: Components)
    requires WellFormed(c)
    ensures var parts, n := Split(Render(c), '\n'), |c.headers|;
            && |parts| == n + 6 && parts[0] == c.verb && parts[1] == c.uri && parts[2] == c.query
            && (forall i | 0 <= i < n :: parts[i + 3] == c.headers[i].0 + ":" + c.headers[i].1)
            && parts[n + 3] == "" && parts[n + 4] == Join(NamesOf(c.headers), ";") && parts[n + 5] == c.payloadHash
  {
    RenderIsJoin(c);
    FieldsFree(c);
    SplitJoin(Fields(c), '\n');
    FieldsLayout(c);
  }

  lemma FieldsLayout(c: Components)
    ensures var parts, n := Fields(c), |c.headers|;
            && |parts| == n + 6 && parts[0] == c.verb && parts[1] == c.uri && parts[2] == c.query
            && (forall i | 0 <= i < n :: parts[i + 3] == c.headers[i].0 + ":" + c.headers[i].1)
            && parts[n + 3] == "" && parts[n + 4] == Join(NamesOf(c.headers), ";") && parts[n + 5] == c.payloadHash
  {
  }

  /** Only an empty path and "/" are the same. */
  lemma SameUri(path: string, path': string)
    ensures CanonicalUri(path) == CanonicalUri(path') <==> path == path' || {path, path'} == {"", "/"}
  {
  }

  const UPPER := "ABCDEFGHIJKLMNOPQRSTUVWXYZ"
  const LOWER := "abcdefghijklmnopqrstuvwxyz"

  lemma LetterAt(j: nat)
    requires j < 26
    ensures |UPPER| == 26 == |LOWER| && UPPER[j] as int == 65 + j && LOWER[j] as int == 97 + j
  {
  }

  lemma UpperLetters(c: char)
    ensures c in UPPER <==> 65 <= c as int <= 90
  {
    LetterAt(0);
    if c in UPPER {
      var j :| 0 <= j < |UPPER| && UPPER[j] == c;
      LetterAt(j);
    }
    if 65 <= c as int <= 90 {
      LetterAt(c as int - 65);
    }
  }

  lemma {:induction false} LowerAt(s: string, i: nat)
    requires i < |s|
    ensures |ToLower(s)| == |s| && ToLower(s)[i] == LowerChar(s[i])
  {
    if |s| > 1 {
      LowerAt(s[1..], if i == 0 then 0 else i - 1);
    } else {
      assert ToLower(s[1..]) == "";
    }
  }

  /** Letters become the letter of the same place in the lower-case alphabet, everything else stays. */
  lemma LowerCased(s: string, i: nat)
    requires i < |s|
    ensures |ToLower(s)| == |s| && !(ToLower(s)[i] in UPPER)
    ensures forall j | 0 <= j < 26 :: s[i] == UPPER[j] ==> ToLower(s)[i] == LOWER[j]
    ensures !(s[i] in UPPER) ==> ToLower(s)[i] == s[i]
  {
    LowerAt(s, i);
    UpperLetters(s[i]);
    UpperLetters(ToLower(s)[i]);
    forall j | 0 <= j < 26 ensures s[i] == UPPER[j] ==> ToLower(s)[i] == LOWER[j] {
      LetterAt(j);
    }
  }

  predicate IsBlank(c: char) {
    c as int in {9, 10, 11, 12, 13, 32}
  }

  lemma {:induction false} TrimLeftMeans(s: string) returns (k: nat)
    ensures k <= |s| && TrimLeft(s) == s[k..]
    ensures (forall i | 0 <= i < k :: IsBlank(s[i])) && (k < |s| ==> !IsBlank(s[k]))
  {
    k := 0;
    if s != "" && IsSpace(s[0]) {
      var j := TrimLeftMeans(s[1..]);
      k := j + 1;
      assert s[1..][j..] == s[k..];
    }
  }

  lemma {:induction false} TrimRightMeans(s: string) returns (k: nat)
    ensures k <= |s| && TrimRight(s) == s[..k]
    ensures (forall i | k <= i < |s| :: IsBlank(s[i])) && (k > 0 ==> !IsBlank(s[k - 1]))
  {
    k := |s|;
    if s != "" && IsSpace(s[|s| - 1]) {
      k := TrimRightMeans(s[..|s| - 1]);
      assert s[..|s| - 1][..k] == s[..k];
    }
  }

  /** What is cut off is blank, and what is left neither starts nor ends with a blank. */
  lemma TrimmedMeans(s: string) returns (i: nat, j: nat)
    ensures i <= j <= |s| && TrimSpace(s) == s[i..j]
    ensures forall k | 0 <= k < i || j <= k < |s| :: IsBlank(s[k])
    ensures i < j ==> !IsBlank(s[i]) && !IsBlank(s[j - 1])
  {
    i := TrimLeftMeans(s);
    var k := TrimRightMeans(s[i..]);
    j := i + k;
    assert s[i..][..k] == s[i..j];
    forall m | j <= m < |s| ensures IsBlank(s[m]) {
      assert s[m] == s[i..][m - i];
    }
    if k > 0 {
      assert s[i..][k - 1] == s[j - 1] && s[i..][0] == s[i];
    }
  }

  /** Several values of one header are all in what is signed, in order, separated by commas. */
  lemma ValuesSigned(values: seq<string>)
    requires values != [] && forall i | 0 <= i < |values| :: values[i] != "" && Free(values[i], ',') && (forall c | c in values[i] :: !IsBlank(c))
    ensures Split(ValueOf(values), ',') == values
  {
    var joined := Join(values, ",");
    JoinEnds(values);
    var i, j := TrimmedMeans(joined);
    assert i == 0 && j == |joined|;
    assert joined[0..|joined|] == joined;
    SplitJoin(values, ',');
  }

  lemma {:induction false} JoinEnds(values: seq<string>)
    requires values != [] && forall i | 0 <= i < |values| :: values[i] != "" && (forall c | c in values[i] :: !IsBlank(c))
    ensures Join(values, ",") != "" && !IsBlank(Join(values, ",")[0]) && !IsBlank(Join(values, ",")[|Join(values, ",")| - 1])
  {
    assert values[0][0] in values[0];
    if |values| == 1 {
      assert values[0][|values[0]| - 1] in values[0];
    } else {
      JoinEnds(values[1..]);
    }
  }

  /** The headers of a signed request besides the caller's own. */
  lemma PreparedHeaders(header: Header, host: string, amzDate: string, sessionToken: string, k: string)
    ensures var h := Prepared(header, host, amzDate, sessionToken);
            && (k == "Host" ==> k in h && h[k] == [host])
            && (k == "X-Amz-Date" ==> k in h && h[k] == [amzDate])
            && (k == "X-Amz-Target" ==> k in h && h[k] == ["secretsmanager.GetSecretValue"])
            && (k == "Content-Type" ==> k in h && h[k] == ["application/x-amz-json-1.1"])
            && (k == "X-Amz-Security-Token" && sessionToken != "" ==> k in h && h[k] == [sessionToken])
            && (k !in {"Host", "X-Amz-Date", "X-Amz-Target", "Content-Type"} && (k == "X-Amz-Security-Token" ==> sessionToken == "") ==>
                 (k in h <==> k in header) && (k in h ==> h[k] == header[k]))
  {
    assert "Host"[0] == 'H' && "X-Amz-Date"[6] == 'D' && "X-Amz-Target"[6] == 'T' && "X-Amz-Security-Token"[6] == 'S' && "Content-Type"[0] == 'C';
    assert "X-Amz-Date"[0] == "X-Amz-Target"[0] == "X-Amz-Security-Token"[0] == 'X';
  }

  // ---- What the signature covers ----------------------------------------------------------------

  lemma Nested(a: string, b: string, c: string, d: string, e: string)
    ensures a + b + (c + d + e) == a + b + c + d + e
  {
  }

  lemma SplitThree(a: string, b: string, c: string, sep: char)
    requires Free(a, sep) && Free(b, sep) && Free(c, sep)
    ensures Split(a + [sep] + b + [sep] + c, sep) == [a, b, c]
  {
    SplitPrefix(c, "", sep);
    SplitPrefix(b, c, sep);
    SplitPrefix(a, b + [sep] + c, sep);
    Nested(a, [sep], b, [sep], c);
  }

  lemma SplitFour(a: string, b: string, c: string, d: string, sep: char)
    requires Free(a, sep) && Free(b, sep) && Free(c, sep) && Free(d, sep)
    ensures Split(a + [sep] + b + [sep] + c + [sep] + d, sep) == [a, b, c, d]
  {
    var tail := b + [sep] + c + [sep] + d;
    SplitThree(b, c, d, sep);
    SplitPrefix(a, tail, sep);
    Nested(a, [sep], b + [sep] + c, [sep], d);
    Nested(a, [sep], b, [sep], c);
  }

  /** The credential scope: date, region, service and the closing word. */
  lemma ScopeParts(dateStamp: string, region: string)
    requires Free(dateStamp, '/') && Free(region, '/')
    ensures Split(Scope(dateStamp, region), '/') == [dateStamp, region, "secretsmanager", "aws4_request"]
  {
    SplitFour(dateStamp, region, "secretsmanager", "aws4_request", '/');
  }

  function KeyChain(h: Hashes, key: string, messages: seq<string>): string
    decreases |messages|
  {
    if messages == [] then key else KeyChain(h, h.hmac(key, messages[0]), messages[1..])
  }

  lemma KeyChainStep(h: Hashes, key: string, message: string, rest: seq<string>)
    ensures KeyChain(h, key, [message] + rest) == KeyChain(h, h.hmac(key, message), rest)
  {
    assert ([message] + rest)[1..] == rest;
  }

  /** The signing key is derived from the secret by the parts of the scope, in their order. */
  lemma SigningKeyChain(h: Hashes, secret: string, dateStamp: string, region: string)
    requires Free(dateStamp, '/') && Free(region, '/')
    ensures SigningKey(h, secret, dateStamp, region) == KeyChain(h, "AWS4" + secret, Split(Scope(dateStamp, region), '/'))
  {
    ScopeParts(dateStamp, region);
    var k := "AWS4" + secret;
    KeyChainStep(h, k, dateStamp, [region, "secretsmanager", "aws4_request"]);
    assert [dateStamp] + [region, "secretsmanager", "aws4_request"] == [dateStamp, region, "secretsmanager", "aws4_request"];
    KeyChainStep(h, h.hmac(k, dateStamp), region, ["secretsmanager", "aws4_request"]);
    assert [region] + ["secretsmanager", "aws4_request"] == [region, "secretsmanager", "aws4_request"];
    var k2 := h.hmac(h.hmac(k, dateStamp), region);
    KeyChainStep(h, k2, "secretsmanager", ["aws4_request"]);
    assert ["secretsmanager"] + ["aws4_request"] == ["secretsmanager", "aws4_request"];
    KeyChainStep(h, h.hmac(k2, "secretsmanager"), "aws4_request", []);
    assert ["aws4_request"] + [] == ["aws4_request"];
  }

  /** SHA-256 and HMAC return bytes. */
  ghost predicate BytesOut(h: Hashes) {
    (forall m :: IsBytes(h.sha256(m))) && (forall k, m :: IsBytes(h.hmac(k, m)))
  }

  /** The string to sign: algorithm, time, scope and the digest of the canonical request. */
  lemma StringToSignParts(h: Hashes, region: string, amzDate: string, dateStamp: string, canonical: string)
    requires Free(amzDate, '\n') && Free(dateStamp, '\n') && Free(region, '\n')
    ensures Split(StringToSign(h, region, amzDate, dateStamp, canonical), '\n') ==
            ["AWS4-HMAC-SHA256", amzDate, Scope(dateStamp, region), Hex(h.sha256(canonical))]
  {
    HexPlain(h.sha256(canonical));
    SplitFour("AWS4-HMAC-SHA256", amzDate, Scope(dateStamp, region), Hex(h.sha256(canonical)), '\n');
  }

  lemma StringToSignCovers(h: Hashes, region: string, amzDate: string, dateStamp: string, c: string, d: string)
    requires BytesOut(h)
    ensures StringToSign(h, region, amzDate, dateStamp, c) == StringToSign(h, region, amzDate, dateStamp, d)
            <==> h.sha256(c) == h.sha256(d)
  {
    var front := ALGORITHM + "\n" + amzDate + "\n" + Scope(dateStamp, region) + "\n";
    HexInjective(h.sha256(c), h.sha256(d));
    SameBack(front, Hex(h.sha256(c)), front, Hex(h.sha256(d)));
  }

  lemma SameBack(a: string, b: string, a': string, b': string)
    requires a == a'
    ensures a + b == a' + b' <==> b == b'
  {
    if a + b == a' + b' {
      assert b == (a + b)[|a|..] && b' == (a' + b')[|a'|..];
    }
  }

  lemma LastAt(a: string, b: string, c: char, j: nat)
    requires Free(b, c) && j < |a + [c] + b| && (a + [c] + b)[j] == c
    ensures j <= |a|
  {
    assert forall m | 0 <= m < |b| :: (a + [c] + b)[|a| + 1 + m] == b[m] != c;
    assert j > |a| ==> j == |a| + 1 + (j - |a| - 1);
  }

  /** What follows the last occurrence of a character is determined by the text. */
  lemma SameAfterLast(a: string, b: string, a': string, b': string, c: char)
    requires Free(b, c) && Free(b', c) && a + [c] + b == a' + [c] + b'
    ensures a == a' && b == b'
  {
    var t, t' := a + [c] + b, a' + [c] + b';
    assert t[|a|] == c && t'[|a'|] == c;
    LastAt(a, b, c, |a'|);
    LastAt(a', b', c, |a|);
    assert a == t[..|a|] && b == t[|a| + 1..] && a' == t'[..|a'|] && b' == t'[|a'| + 1..];
  }

  /** The three parts of the header, to be told apart at its commas. */
  lemma AuthorizationParts(h: Hashes, creds: Credentials, region: string, amzDate: string, dateStamp: string, canonical: string, signed: string)
    requires BytesOut(h) && Free(creds.accessKey, ',') && Free(dateStamp, ',') && Free(region, ',') && Free(signed, ',')
    ensures Split(Authorization(h, creds, region, amzDate, dateStamp, canonical, signed), ',') ==
            ["AWS4-HMAC-SHA256" + " Credential=" + creds.accessKey + "/" + Scope(dateStamp, region), " SignedHeaders=" + signed,
             " Signature=" + Hex(h.hmac(SigningKey(h, creds.accessSecret, dateStamp, region), StringToSign(h, region, amzDate, dateStamp, canonical)))]
  {
    var code := h.hmac(SigningKey(h, creds.accessSecret, dateStamp, region), StringToSign(h, region, amzDate, dateStamp, canonical));
    var x := Credential(creds, Scope(dateStamp, region));
    HexFree(code, ',');
    CommaParts(x, signed, Hex(code));
    SplitThree(x, " SignedHeaders=" + signed, " Signature=" + Hex(code), ',');
  }

  lemma CommaParts(x: string, signed: string, code: string)
    ensures x + ", SignedHeaders=" + signed + ", Signature=" + code == x + [','] + (" SignedHeaders=" + signed) + [','] + (" Signature=" + code)
  {
    assert ", SignedHeaders=" == [','] + " SignedHeaders=" && ", Signature=" == [','] + " Signature=";
  }

  /** Two headers for the same credentials, region and time agree exactly when the signed names and the HMACs do. */
  lemma AuthorizationsAgree(h: Hashes, creds: Credentials, region: string, amzDate: string, dateStamp: string, c: string, signed: string, d: string, signed': string)
    requires BytesOut(h)
    ensures Authorization(h, creds, region, amzDate, dateStamp, c, signed) == Authorization(h, creds, region, amzDate, dateStamp, d, signed') <==>
            && signed == signed'
            && h.hmac(SigningKey(h, creds.accessSecret, dateStamp, region), StringToSign(h, region, amzDate, dateStamp, c))
                 == h.hmac(SigningKey(h, creds.accessSecret, dateStamp, region), StringToSign(h, region, amzDate, dateStamp, d))
  {
    var key := SigningKey(h, creds.accessSecret, dateStamp, region);
    var x, y := h.hmac(key, StringToSign(h, region, amzDate, dateStamp, c)), h.hmac(key, StringToSign(h, region, amzDate, dateStamp, d));
    var front := Credential(creds, Scope(dateStamp, region)) + ", SignedHeaders=";
    HexInjective(x, y);
    HexFree(x, '=');
    HexFree(y, '=');
    var auth, auth' := Authorization(h, creds, region, amzDate, dateStamp, c, signed), Authorization(h, creds, region, amzDate, dateStamp, d, signed');
    assert auth == front + (signed + ", Signature") + ['='] + Hex(x);
    assert auth' == front + (signed' + ", Signature") + ['='] + Hex(y);
    if auth == auth' {
      SameAfterLast(front + (signed + ", Signature"), Hex(x), front + (signed' + ", Signature"), Hex(y), '=');
      SameBack(front, signed + ", Signature", front, signed' + ", Signature");
      assert signed == (signed + ", Signature")[..|signed|] && signed' == (signed' + ", Signature")[..|signed'|];
    }
  }

  /** No collision of SHA-256 or HMAC happens to lie between these two requests. */
  predicate Apart(h: Hashes, creds: Credentials, region: string, amzDate: string, dateStamp: string, c: string, d: string) {
    var key := SigningKey(h, creds.accessSecret, dateStamp, region);
    var x, y := StringToSign(h, region, amzDate, dateStamp, c), StringToSign(h, region, amzDate, dateStamp, d);
    && (h.sha256(c) == h.sha256(d) ==> c == d)
    && (h.hmac(key, x) == h.hmac(key, y) ==> x == y)
  }

  /** Collisions aside, the signature covers the canonical request: all of it and nothing else. */
  lemma SignatureCovers(h: Hashes, creds: Credentials, region: string, amzDate: string, dateStamp: string, c: string, d: string, signed: string, signed': string)
    requires BytesOut(h) && Apart(h, creds, region, amzDate, dateStamp, c, d)
    ensures Authorization(h, creds, region, amzDate, dateStamp, c, signed) == Authorization(h, creds, region, amzDate, dateStamp, d, signed')
            <==> c == d && signed == signed'
  {
    AuthorizationsAgree(h, creds, region, amzDate, dateStamp, c, signed, d, signed');
    StringToSignCovers(h, region, amzDate, dateStamp, c, d);
  }

  /** The header that signRequest leaves for this message and iteration order. */
  function Signature(m: Message, order: seq<string>, h: Hashes, creds: Credentials, region: string, amzDate: string, dateStamp: string): seq<string>
    requires forall k | k in order :: k in m.header
  {
    SignedBy(m, order, h, creds, region, amzDate, dateStamp)["Authorization"]
  }

  /**
   * Hence, for requests signed with the same credentials, region and time and without separators or
   * header names that differ in case only, and collisions aside: two requests get the same
   * authorization exactly when verb, path, query, payload and every lower-cased header agree.
   */
  lemma SignatureCoversRequest(
      verb: string, path: string, query: string, header: Header, payload: string, order: seq<string>, view: map<string, string>,
      verb': string, path': string, query': string, header': Header, payload': string, order': seq<string>, view': map<string, string>,
      h: Hashes, creds: Credentials, region: string, amzDate: string, dateStamp: string)
    requires IsOrder(order, header) && ViewOf(view, header) && DistinctNames(header) && PlainRequest(verb, path, query, view)
    requires IsOrder(order', header') && ViewOf(view', header') && DistinctNames(header') && PlainRequest(verb', path', query', view')
    requires BytesOut(h) && (h.sha256(payload) == h.sha256(payload') ==> payload == payload')
    requires Apart(h, creds, region, amzDate, dateStamp, Render(ComponentsOf(MessageOf(verb, path, query, header, payload, h), order)),
                   Render(ComponentsOf(MessageOf(verb', path', query', header', payload', h), order')))
    ensures Signature(MessageOf(verb, path, query, header, payload, h), order, h, creds, region, amzDate, dateStamp)
              == Signature(MessageOf(verb', path', query', header', payload', h), order', h, creds, region, amzDate, dateStamp)
            <==> && verb == verb' && (path == path' || {path, path'} == {"", "/"}) && query == query'
                 && payload == payload' && view == view'
  {
    var m, m' := MessageOf(verb, path, query, header, payload, h), MessageOf(verb', path', query', header', payload', h);
    var c, d := ComponentsOf(m, order), ComponentsOf(m', order');
    SignatureCovers(h, creds, region, amzDate, dateStamp, Render(c), Render(d), SignedHeaders(c.headers), SignedHeaders(d.headers));
    SameSignedRequest(verb, path, query, header, payload, order, view, verb', path', query', header', payload', order', view', h);
    SameUri(path, path');
    HexInjective(h.sha256(payload), h.sha256(payload'));
    if view == view' {
      SamePairs(header, order, view, header', order', view');
    }
    SameSingleton(Authorization(h, creds, region, amzDate, dateStamp, Render(c), SignedHeaders(c.headers)),
                  Authorization(h, creds, region, amzDate, dateStamp, Render(d), SignedHeaders(d.headers)));
  }

  lemma SameSingleton(a: string, b: string)
    ensures [a] == [b] <==> a == b
  {
    assert [a] == [b] ==> [a][0] == [b][0];
  }
}
