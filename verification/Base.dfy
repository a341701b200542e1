/** Small vocabulary shared by every component of the operator model. */
module Base {

  datatype Option<+T> = None | Some(value: T)

  /** The characters Go's `strings.TrimSpace` removes (Unicode White_Space). */
  predicate IsSpace(c: char) {
    || '\t' <= c <= '\r'
    || c == ' ' || c == '\U{0085}' || c == '\U{00A0}' || c == '\U{1680}'
    || '\U{2000}' <= c <= '\U{200A}'
    || c == '\U{2028}' || c == '\U{2029}' || c == '\U{202F}' || c == '\U{205F}' || c == '\U{3000}'
  }

  function TrimLeft(s: string): string {
    if s == [] || !IsSpace(s[0]) then s else TrimLeft(s[1..])
  }

  function TrimRight(s: string): string {
    if s == [] || !IsSpace(s[|s| - 1]) then s else TrimRight(s[..|s| - 1])
  }

  /** `strings.TrimSpace`. */
  function TrimSpace(s: string): string {
    TrimRight(TrimLeft(s))
  }

  predicate Blank(s: string) {
    forall i | 0 <= i < |s| :: IsSpace(s[i])
  }

  lemma {:induction false} TrimLeftCuts(s: string) returns (lead: string)
    ensures s == lead + TrimLeft(s) && Blank(lead)
    ensures TrimLeft(s) != "" ==> !IsSpace(TrimLeft(s)[0])
  {
    lead := "";
    if s != [] && IsSpace(s[0]) {
      var rest := TrimLeftCuts(s[1..]);
      lead := [s[0]] + rest;
    }
  }

  lemma {:induction false} TrimRightCuts(s: string) returns (trail: string)
    ensures s == TrimRight(s) + trail && Blank(trail)
  {
    trail := "";
    if s != [] && IsSpace(s[|s| - 1]) {
      var rest := TrimRightCuts(s[..|s| - 1]);
      trail := rest + [s[|s| - 1]];
    }
  }

  /** Trimming takes white space off both ends and nothing else. */
  lemma {:induction false} TrimCuts(s: string) returns (lead: string, trail: string)
    requires TrimSpace(s) != ""
    ensures s == lead + TrimSpace(s) + trail && Blank(lead) && Blank(trail) && !IsSpace(TrimSpace(s)[0])
  {
    lead := TrimLeftCuts(s);
    trail := TrimRightCuts(TrimLeft(s));
    assert TrimLeft(s)[0] == TrimSpace(s)[0];
  }

  // ----- Texts cut at a separator

  const NUL: char := '\0'

  predicate CharAt(s: string, i: int, c: char) {
    0 <= i < |s| && s[i] == c
  }

  lemma Nowhere(s: string, i: int, c: char)
    requires c !in s
    ensures !CharAt(s, i, c)
  {
  }

  lemma FirstFieldsAgree(sep: char, x: string, y: string, s: string, t: string)
    requires sep !in x && sep !in y && x + [sep] + s <= y + [sep] + t
    ensures x == y && s <= t
  {
    var l, r := x + [sep] + s, y + [sep] + t;
    assert CharAt(r, |x|, sep) by { assert CharAt(l, |x|, sep); }
    assert |y| < |x| ==> CharAt(l, |y|, sep) by { assert CharAt(r, |y|, sep); }
    Nowhere(y, |x|, sep);
    Nowhere(x, |y|, sep);
    assert |x| == |y|;
    assert forall i | 0 <= i < |x| :: x[i] == l[i] && r[i] == y[i];
    assert s == l[|x| + 1..] && t == r[|x| + 1..];
  }

  // ----- Go's order on strings

  predicate TextLess(a: string, b: string) {
    b != "" && (a == "" || a[0] < b[0] || (a[0] == b[0] && TextLess(a[1..], b[1..])))
  }

  lemma {:induction false} TextOrder(a: string, b: string)
    ensures TextLess(a, b) ==> !TextLess(b, a) && a != b
    ensures TextLess(a, b) || TextLess(b, a) || a == b
  {
    if a != "" && b != "" && a[0] == b[0] {
      TextOrder(a[1..], b[1..]);
      assert a == [a[0]] + a[1..] && b == [b[0]] + b[1..];
    }
  }

  lemma {:induction false} TextTransitive(a: string, b: string, c: string)
    requires TextLess(a, b) && TextLess(b, c)
    ensures TextLess(a, c)
  {
    if a != "" && a[0] == b[0] == c[0] { TextTransitive(a[1..], b[1..], c[1..]); }
  }
}
