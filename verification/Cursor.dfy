/** The list cursor: a continuation token sealed together with a digest of the query. */
module Cursor {
  import opened Base
  import Base64

  type Bytes = seq<Base64.byte>

  const VERSION: Base64.byte := 1
  const NONCE_SIZE := 12
  const OVERHEAD := 16
  const MAX_LENGTH := 16384
  const MAX_PAYLOAD := 12259

  datatype Payload = Payload(token: string, queryHash: string)

  /** The cipher under one key, the JSON codec of the payload, and the digest. */
  datatype Library = Library(
    seal: (Bytes, Bytes, Bytes) -> Bytes,
    open: (Bytes, Bytes, Bytes) -> Option<Bytes>,
    marshal: Payload -> Bytes,
    unmarshal: Bytes -> Option<Payload>,
    digest: string -> string)

  /** The cipher opens exactly what it sealed, the codec reads back what it wrote, and
      digests are not empty and do not collide. */
  ghost predicate Ideal(lib: Library) {
    && (forall nonce, plain, extra :: |lib.seal(nonce, plain, extra)| == |plain| + OVERHEAD)
    && (forall nonce, sealed, plain, extra ::
          lib.open(nonce, sealed, extra) == Some(plain) <==> sealed == lib.seal(nonce, plain, extra))
    && (forall p :: lib.unmarshal(lib.marshal(p)) == Some(p))
    && (forall x :: lib.digest(x) != "")
    && (forall x, y :: lib.digest(x) == lib.digest(y) ==> x == y)
  }

  function Wire(lib: Library, nonce: Bytes, payload: Bytes): Bytes {
    [VERSION] + nonce + lib.seal(nonce, payload, [VERSION])
  }

  function Encode(lib: Library, nonce: Bytes, token: string, queryHash: string): Option<string> {
    if token == "" then None
    else Some(Base64.Encode(Wire(lib, nonce, lib.marshal(Payload(token, queryHash)))))
  }

  function Accept(payload: Option<Payload>, queryHash: string): Option<string> {
    if payload.None? || payload.value.token == "" || payload.value.queryHash == "" then None
    else if payload.value.queryHash != queryHash then None
    else Some(payload.value.token)
  }

  function OpenWire(lib: Library, wire: Bytes, queryHash: string): Option<string> {
    if |wire| < 1 + NONCE_SIZE + OVERHEAD || wire[0] != VERSION then None
    else
      var plain := lib.open(wire[1..1 + NONCE_SIZE], wire[1 + NONCE_SIZE..], wire[..1]);
      if plain.None? then None else Accept(lib.unmarshal(plain.value), queryHash)
  }

  function Decode(lib: Library, encoded: string, queryHash: string): Option<string> {
    if encoded == "" || |encoded| > MAX_LENGTH then None
    else
      var wire := Base64.Decode(encoded);
      if wire.None? then None else OpenWire(lib, wire.value, queryHash)
  }

  lemma OpensWhatItSealed(lib: Library, nonce: Bytes, payload: Bytes, queryHash: string)
    requires Ideal(lib) && |nonce| == NONCE_SIZE
    ensures OpenWire(lib, Wire(lib, nonce, payload), queryHash) == Accept(lib.unmarshal(payload), queryHash)
  {
    var sealed := lib.seal(nonce, payload, [VERSION]);
    var wire := Wire(lib, nonce, payload);
    assert wire[1..1 + NONCE_SIZE] == nonce && wire[1 + NONCE_SIZE..] == sealed && wire[..1] == [VERSION];
    assert lib.open(nonce, sealed, [VERSION]) == Some(payload);
  }

  /** A cursor decodes to its token exactly under the query it was made for, provided its
      payload is within the bound; a longer one is encoded but never accepted. */
  lemma {:induction false} RoundTrip(lib: Library, nonce: Bytes, token: string, made: string, asked: string)
    requires Ideal(lib) && |nonce| == NONCE_SIZE && token != "" && made != ""
    ensures var cursor := Encode(lib, nonce, token, made);
      && cursor.Some? && cursor.value != ""
      && Decode(lib, cursor.value, asked) ==
         if made == asked && |lib.marshal(Payload(token, made))| <= MAX_PAYLOAD then Some(token) else None
  {
    var payload := lib.marshal(Payload(token, made));
    Base64.RoundTrip(Wire(lib, nonce, payload));
    OpensWhatItSealed(lib, nonce, payload, asked);
    assert lib.unmarshal(payload) == Some(Payload(token, made));
  }

  /** Nothing is accepted but what this key sealed for the same query. */
  lemma {:induction false} OnlySealedAccepted(lib: Library, encoded: string, queryHash: string)
    requires Ideal(lib) && Decode(lib, encoded, queryHash).Some?
    ensures exists nonce, payload | Base64.Decode(encoded) == Some(Wire(lib, nonce, payload)) ::
      lib.unmarshal(payload) == Some(Payload(Decode(lib, encoded, queryHash).value, queryHash))
  {
    var wire := Base64.Decode(encoded).value;
    var nonce, sealed := wire[1..1 + NONCE_SIZE], wire[1 + NONCE_SIZE..];
    assert wire[..1] == [VERSION];
    var payload := lib.open(nonce, sealed, [VERSION]).value;
    assert wire == Wire(lib, nonce, payload);
  }

  // ----- The query digest

  predicate Plain(s: string) {
    NUL !in s
  }

  function Digit(d: nat): char
    requires d < 10
  {
    '0' + d as char
  }

  function Decimal(n: nat): string {
    if n < 10 then [Digit(n)] else Decimal(n / 10) + [Digit(n % 10)]
  }

  function QueryText(namespace: string, instance: string, limit: nat, phase: string): string {
    "v1" + [NUL] + (namespace + [NUL] + (instance + [NUL] + (Decimal(limit) + [NUL] + phase)))
  }

  lemma {:induction false} DecimalPlain(n: nat)
    ensures Plain(Decimal(n))
  {
    if n >= 10 { DecimalPlain(n / 10); }
  }

  lemma LastChar(x: string, a: char, y: string, b: char)
    requires x + [a] == y + [b]
    ensures x == y && a == b
  {
    assert (x + [a])[..|x|] == x && (y + [b])[..|y|] == y && (x + [a])[|x|] == a && (y + [b])[|y|] == b;
  }

  lemma {:induction false} DecimalInjective(m: nat, n: nat)
    requires Decimal(m) == Decimal(n)
    ensures m == n
  {
    DecimalNonEmpty(m / 10);
    DecimalNonEmpty(n / 10);
    if m >= 10 && n >= 10 {
      LastChar(Decimal(m / 10), Digit(m % 10), Decimal(n / 10), Digit(n % 10));
      DecimalInjective(m / 10, n / 10);
    }
  }

  lemma DecimalNonEmpty(n: nat)
    ensures |Decimal(n)| >= 1
  {
  }

  lemma FirstField(x: string, s: string, y: string, t: string)
    requires Plain(x) && Plain(y) && x + [NUL] + s == y + [NUL] + t
    ensures x == y && s == t
  {
    FirstFieldsAgree(NUL, x, y, s, t);
    FirstFieldsAgree(NUL, y, x, t, s);
  }

  /** Queries share a digest exactly when namespace, instance, limit and phase agree. */
  lemma {:induction false} DigestIdentifiesQuery(
    lib: Library, ns: string, instance: string, limit: nat, phase: string,
    ns': string, instance': string, limit': nat, phase': string)
    requires Ideal(lib) && Plain(ns) && Plain(instance) && Plain(ns') && Plain(instance')
    ensures lib.digest(QueryText(ns, instance, limit, phase)) == lib.digest(QueryText(ns', instance', limit', phase')) <==>
      ns == ns' && instance == instance' && limit == limit' && phase == phase'
  {
    if QueryText(ns, instance, limit, phase) == QueryText(ns', instance', limit', phase') {
      var three, three' := Decimal(limit) + [NUL] + phase, Decimal(limit') + [NUL] + phase';
      var two, two' := instance + [NUL] + three, instance' + [NUL] + three';
      FirstField("v1", ns + [NUL] + two, "v1", ns' + [NUL] + two');
      FirstField(ns, two, ns', two');
      FirstField(instance, three, instance', three');
      DecimalPlain(limit);
      DecimalPlain(limit');
      FirstField(Decimal(limit), phase, Decimal(limit'), phase');
      DecimalInjective(limit, limit');
    }
  }
}
