/** Unpadded base64url, section 5 of RFC 4648, with a decoder that skips line breaks
    and ignores unused trailing bits. */
module Base64 {
  import opened Base

  type byte = n: nat | n < 256
  type sextet = n: nat | n < 64

  function Letter(n: sextet): char {
    if n < 26 then 'A' + n as char
    else if n < 52 then 'a' + (n - 26) as char
    else if n < 62 then '0' + (n - 52) as char
    else if n == 62 then '-' else '_'
  }

  function Value(c: char): Option<sextet> {
    if 'A' <= c <= 'Z' then Some((c - 'A') as nat)
    else if 'a' <= c <= 'z' then Some((c - 'a') as nat + 26)
    else if '0' <= c <= '9' then Some((c - '0') as nat + 52)
    else if c == '-' then Some(62)
    else if c == '_' then Some(63)
    else None
  }

  function Letters(values: seq<sextet>): string {
    if values == [] then "" else [Letter(values[0])] + Letters(values[1..])
  }

  function Values(text: string): Option<seq<sextet>> {
    if text == "" then Some([])
    else if text[0] == '\r' || text[0] == '\n' then Values(text[1..])
    else
      var head, rest := Value(text[0]), Values(text[1..]);
      if head.None? || rest.None? then None else Some([head.value] + rest.value)
  }

  // Three bytes and four sextets hold the same 24 bits.

  function High(a: byte): sextet { a / 4 }

  function HighMiddle(a: byte, b: byte): sextet { a % 4 * 16 + b / 16 }

  function LowMiddle(b: byte, c: byte): sextet { b % 16 * 4 + c / 64 }

  function Low(c: byte): sextet { c % 64 }

  function First(p: sextet, q: sextet): byte { p as int * 4 + q as int / 16 }

  function Second(q: sextet, r: sextet): byte { q as int % 16 * 16 + r as int / 4 }

  function Third(r: sextet, s: sextet): byte { r as int % 4 * 64 + s as int }

  function Split(b: seq<byte>): seq<sextet> {
    if b == [] then []
    else if |b| == 1 then [High(b[0]), HighMiddle(b[0], 0)]
    else if |b| == 2 then [High(b[0]), HighMiddle(b[0], b[1]), LowMiddle(b[1], 0)]
    else [High(b[0]), HighMiddle(b[0], b[1]), LowMiddle(b[1], b[2]), Low(b[2])] + Split(b[3..])
  }

  function Merge(v: seq<sextet>): Option<seq<byte>> {
    if v == [] then Some([])
    else if |v| == 1 then None
    else if |v| == 2 then Some([First(v[0], v[1])])
    else if |v| == 3 then Some([First(v[0], v[1]), Second(v[1], v[2])])
    else
      var rest := Merge(v[4..]);
      if rest.None? then None
      else Some([First(v[0], v[1]), Second(v[1], v[2]), Third(v[2], v[3])] + rest.value)
  }

  function Encode(bytes: seq<byte>): string {
    Letters(Split(bytes))
  }

  function Decode(text: string): Option<seq<byte>> {
    var values := Values(text);
    if values.None? then None else Merge(values.value)
  }

  function EncodedLength(n: nat): nat {
    (n * 8 + 5) / 6
  }

  lemma LetterValue(n: sextet)
    ensures Value(Letter(n)) == Some(n) && Letter(n) != '\r' && Letter(n) != '\n'
  {
  }

  lemma {:induction false} LettersValues(values: seq<sextet>)
    ensures Values(Letters(values)) == Some(values) && |Letters(values)| == |values|
  {
    if values != [] {
      LetterValue(values[0]);
      LettersValues(values[1..]);
      assert Letters(values)[1..] == Letters(values[1..]);
      assert values == [values[0]] + values[1..];
    }
  }

  lemma Triple(a: byte, b: byte, c: byte)
    ensures First(High(a), HighMiddle(a, b)) == a
    ensures Second(HighMiddle(a, b), LowMiddle(b, c)) == b
    ensures Third(LowMiddle(b, c), Low(c)) == c
  {
  }

  lemma MergeFour(p: sextet, q: sextet, r: sextet, s: sextet, rest: seq<sextet>, bytes: seq<byte>)
    requires Merge(rest) == Some(bytes)
    ensures Merge([p, q, r, s] + rest) == Some([First(p, q), Second(q, r), Third(r, s)] + bytes)
  {
    assert ([p, q, r, s] + rest)[4..] == rest;
  }

  lemma {:induction false} SplitLength(b: seq<byte>)
    ensures |Split(b)| == EncodedLength(|b|)
    decreases |b|
  {
    if |b| >= 3 { SplitLength(b[3..]); }
  }

  lemma Chunk(x: byte, y: byte, z: byte, rest: seq<sextet>, bytes: seq<byte>)
    requires Merge(rest) == Some(bytes)
    ensures Merge([High(x), HighMiddle(x, y), LowMiddle(y, z), Low(z)] + rest) == Some([x, y, z] + bytes)
  {
    MergeFour(High(x), HighMiddle(x, y), LowMiddle(y, z), Low(z), rest, bytes);
    Triple(x, y, z);
  }

  lemma LastTwo(x: byte, y: byte, zero: byte)
    ensures Merge([High(x), HighMiddle(x, y), LowMiddle(y, zero)]) == Some([x, y])
  {
    Triple(x, y, zero);
  }

  lemma MergeTwo(p: sextet, q: sextet)
    ensures Merge([p, q]) == Some([First(p, q)])
  {
  }

  lemma LastOne(x: byte, zero: byte)
    ensures Merge([High(x), HighMiddle(x, zero)]) == Some([x])
  {
    MergeTwo(High(x), HighMiddle(x, zero));
    Triple(x, zero, zero);
  }

  lemma {:induction false} SplitMerge(b: seq<byte>)
    ensures Merge(Split(b)) == Some(b)
    decreases |b|
  {
    if |b| >= 3 {
      SplitMerge(b[3..]);
      Chunk(b[0], b[1], b[2], Split(b[3..]), b[3..]);
      assert b == [b[0], b[1], b[2]] + b[3..];
    } else if |b| == 2 {
      LastTwo(b[0], b[1], 0);
      assert b == [b[0], b[1]];
    } else if |b| == 1 {
      LastOne(b[0], 0);
      assert b == [b[0]];
    }
  }

  /** Decoding undoes encoding, and the text is as long as the bits need. */
  lemma {:induction false} RoundTrip(bytes: seq<byte>)
    ensures Decode(Encode(bytes)) == Some(bytes) && |Encode(bytes)| == EncodedLength(|bytes|)
  {
    SplitMerge(bytes);
    SplitLength(bytes);
    LettersValues(Split(bytes));
  }
}
