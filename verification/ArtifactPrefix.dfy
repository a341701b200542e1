/** From a manifest key to the object-store prefix that cleanup deletes. */
module ArtifactPrefix {
  import opened Base

  // ----- Slash-separated paths

  function Split(s: string): (segs: seq<string>)
    ensures |segs| > 0
  {
    if s == "" then [""]
    else if s[0] == '/' then [""] + Split(s[1..])
    else
      var rest := Split(s[1..]);
      [[s[0]] + rest[0]] + rest[1..]
  }

  function Join(segs: seq<string>): string {
    if segs == [] then "" else if |segs| == 1 then segs[0] else segs[0] + "/" + Join(segs[1..])
  }

  predicate SlashFree(seg: string) {
    '/' !in seg
  }

  predicate Segments(segs: seq<string>) {
    forall i | 0 <= i < |segs| :: SlashFree(segs[i])
  }

  lemma {:induction false} JoinSplit(s: string)
    ensures Join(Split(s)) == s && Segments(Split(s))
  {
    if s != "" {
      var rest := Split(s[1..]);
      JoinSplit(s[1..]);
      if s[0] != '/' {
        if |rest| > 1 {
          assert Split(s)[1..] == rest[1..];
          assert Join(rest) == rest[0] + "/" + Join(rest[1..]);
          assert Join(Split(s)) == [s[0]] + Join(rest);
        }
      } else {
        assert Split(s)[1..] == rest;
      }
    }
  }

  lemma {:induction false} SplitPlain(seg: string)
    requires SlashFree(seg)
    ensures Split(seg) == [seg]
  {
    if seg != "" {
      SplitPlain(seg[1..]);
      assert seg == [seg[0]] + seg[1..];
    }
  }

  lemma {:induction false} SplitAtSlash(seg: string, tail: string)
    requires SlashFree(seg)
    ensures Split(seg + "/" + tail) == [seg] + Split(tail)
  {
    var s := seg + "/" + tail;
    if seg == "" {
      assert s[1..] == tail;
    } else {
      SplitAtSlash(seg[1..], tail);
      assert s[0] == seg[0] && s[1..] == seg[1..] + "/" + tail;
      var rest := Split(s[1..]);
      assert rest[0] == seg[1..] && rest[1..] == Split(tail);
      assert [seg[0]] + seg[1..] == seg;
    }
  }

  lemma {:induction false} SplitJoin(segs: seq<string>)
    requires segs != [] && Segments(segs)
    ensures Split(Join(segs)) == segs
  {
    if |segs| == 1 {
      SplitPlain(segs[0]);
    } else {
      SplitJoin(segs[1..]);
      SplitAtSlash(segs[0], Join(segs[1..]));
    }
  }

  lemma {:induction false} JoinAppend(segs: seq<string>, last: string)
    requires segs != []
    ensures Join(segs + [last]) == Join(segs) + "/" + last
  {
    if |segs| > 1 {
      JoinAppend(segs[1..], last);
      assert (segs + [last])[1..] == segs[1..] + [last];
    } else {
      assert (segs + [last])[1..] == [last];
    }
  }

  // ----- Go's path.Clean

  function CleanSegments(segs: seq<string>, stack: seq<string>, rooted: bool): seq<string> {
    if segs == [] then stack
    else if segs[0] == "" || segs[0] == "." then CleanSegments(segs[1..], stack, rooted)
    else if segs[0] == ".." then
      if stack != [] && stack[|stack| - 1] != ".." then CleanSegments(segs[1..], stack[..|stack| - 1], rooted)
      else CleanSegments(segs[1..], if rooted then stack else stack + [".."], rooted)
    else CleanSegments(segs[1..], stack + [segs[0]], rooted)
  }

  function Clean(path: string): string {
    if path == "" then "."
    else
      var rooted := path[0] == '/';
      var stack := CleanSegments(Split(path), [], rooted);
      if rooted then "/" + Join(stack) else if stack == [] then "." else Join(stack)
  }

  predicate Safe(seg: string) {
    seg != "" && seg != "." && seg != ".."
  }

  predicate SafeSegments(segs: seq<string>) {
    segs != [] && Segments(segs) && forall i | 0 <= i < |segs| :: Safe(segs[i])
  }

  lemma {:induction false} CleanKeepsSafe(segs: seq<string>, stack: seq<string>, rooted: bool)
    requires forall i | 0 <= i < |segs| :: Safe(segs[i])
    ensures CleanSegments(segs, stack, rooted) == stack + segs
  {
    if segs != [] {
      CleanKeepsSafe(segs[1..], stack + [segs[0]], rooted);
    }
  }

  lemma {:induction false} JoinStartsWithFirst(segs: seq<string>)
    requires SafeSegments(segs)
    ensures Join(segs) != "" && Join(segs)[0] != '/'
  {
    var first := segs[0];
    assert Safe(first) && SlashFree(first);
    assert first[0] in first;
    assert Join(segs)[0] == first[0];
  }

  lemma {:induction false} CleanOfSafePath(segs: seq<string>)
    requires SafeSegments(segs)
    ensures Clean(Join(segs)) == Join(segs)
  {
    JoinStartsWithFirst(segs);
    SplitJoin(segs);
    CleanKeepsSafe(segs, [], false);
    assert [] + segs == segs;
  }

  // ----- The artifact root

  const NAME := "manifest.json"
  const MANIFEST := "/" + NAME

  lemma NameIsSafe()
    ensures SlashFree(NAME) && Safe(NAME)
  {
  }

  predicate HasSuffix(s: string, suffix: string) {
    |suffix| <= |s| && s[|s| - |suffix|..] == suffix
  }

  /** None stands for every rejected key; cleanup is then blocked. */
  function RootPrefix(manifestKey: string): Option<string> {
    var key := TrimSpace(manifestKey);
    if key == "" then None
    else if key[0] == '/' then None
    else if Clean(key) != key then None
    else if !HasSuffix(key, MANIFEST) then None
    else
      var root := key[..|key| - |MANIFEST|];
      if root == "" || root == "." || root == "/" then None
      else if exists i | 0 <= i < |Split(root)| :: !Safe(Split(root)[i]) then None
      else Some(root + "/")
  }

  method CheckParts(parts: seq<string>) returns (safe: bool)
    ensures safe <==> !exists i | 0 <= i < |parts| :: !Safe(parts[i])
  {
    for i := 0 to |parts|
      invariant forall k | 0 <= k < i :: Safe(parts[k])
    {
      if parts[i] == "" || parts[i] == "." || parts[i] == ".." { return false; }
    }
    return true;
  }

  /** The same, with the segments walked one by one. */
  method ArtifactRootPrefix(manifestKey: string) returns (prefix: Option<string>)
    ensures prefix == RootPrefix(manifestKey)
  {
    var key := TrimSpace(manifestKey);
    if key == "" || key[0] == '/' || Clean(key) != key || !HasSuffix(key, MANIFEST) { return None; }
    var root := key[..|key| - |MANIFEST|];
    if root == "" || root == "." || root == "/" { return None; }
    var safe := CheckParts(Split(root));
    return if safe then Some(root + "/") else None;
  }

  /** These path segments lead to the directory holding the manifest. */
  predicate IsRootOf(segs: seq<string>, manifestKey: string) {
    SafeSegments(segs) && TrimSpace(manifestKey) == Join(segs) + MANIFEST
  }

  /** A key is accepted exactly when it is a path of safe segments ending in the manifest name. */
  lemma {:induction false} AcceptedKeys(manifestKey: string)
    ensures RootPrefix(manifestKey).Some? <==> exists segs :: IsRootOf(segs, manifestKey)
  {
    if RootPrefix(manifestKey).Some? {
      var segs := RootSegments(manifestKey);
    } else if segs :| IsRootOf(segs, manifestKey) {
      SafePathAccepted(manifestKey, segs);
    }
  }

  lemma {:induction false} RootSegments(manifestKey: string) returns (segs: seq<string>)
    requires RootPrefix(manifestKey).Some?
    ensures IsRootOf(segs, manifestKey) && RootPrefix(manifestKey) == Some(Join(segs) + "/")
  {
    var key := TrimSpace(manifestKey);
    var root := key[..|key| - |MANIFEST|];
    segs := Split(root);
    JoinSplit(root);
  }

  lemma {:induction false} SafeRoot(segs: seq<string>)
    requires SafeSegments(segs)
    ensures Split(Join(segs)) == segs && Join(segs) != "" && Join(segs) != "." && Join(segs) != "/"
  {
    SplitJoin(segs);
    JoinStartsWithFirst(segs);
    SplitPlain(".");
    assert Safe(segs[0]);
  }

  lemma {:induction false} SafePathWithName(segs: seq<string>, name: string, key: string)
    requires SafeSegments(segs) && Safe(name) && SlashFree(name) && key == Join(segs) + "/" + name
    ensures key != "" && key[0] != '/' && Clean(key) == key
  {
    var all := segs + [name];
    JoinAppend(segs, name);
    assert SafeSegments(all);
    CleanOfSafePath(all);
    JoinStartsWithFirst(all);
  }

  lemma {:induction false} SafePathAccepted(manifestKey: string, segs: seq<string>)
    requires SafeSegments(segs) && TrimSpace(manifestKey) == Join(segs) + MANIFEST
    ensures RootPrefix(manifestKey) == Some(Join(segs) + "/")
  {
    var key := TrimSpace(manifestKey);
    NameIsSafe();
    assert key == Join(segs) + "/" + NAME;
    SafePathWithName(segs, NAME, key);
    SafeRoot(segs);
    assert key[..|key| - |MANIFEST|] == Join(segs);
    assert HasSuffix(key, MANIFEST);
  }

  // ----- What a deleted prefix covers

  /** Every segment followed by a slash. */
  function Slashed(segs: seq<string>): string {
    if segs == [] then "" else segs[0] + "/" + Slashed(segs[1..])
  }

  lemma {:induction false} SlashedIsJoin(segs: seq<string>)
    requires segs != []
    ensures Slashed(segs) == Join(segs) + "/"
  {
    if |segs| > 1 { SlashedIsJoin(segs[1..]); }
  }

  lemma {:induction false} PrefixOnSegments(a: seq<string>, b: seq<string>)
    requires Segments(a) && Segments(b)
    ensures Slashed(a) <= Slashed(b) <==> a <= b
  {
    if a != [] && b != [] {
      PrefixOnSegments(a[1..], b[1..]);
      if Slashed(a) <= Slashed(b) {
        FirstFieldsAgree('/', a[0], b[0], Slashed(a[1..]), Slashed(b[1..]));
        assert a == [a[0]] + a[1..] && b == [b[0]] + b[1..];
      }
      assert a <= b ==> a[0] == b[0] && a[1..] <= b[1..];
    }
  }

  lemma SlashEndsEarly(prefix: string, root: string, tail: string)
    requires prefix != "" && prefix[|prefix| - 1] == '/' && SlashFree(tail)
    ensures prefix <= root + tail <==> prefix <= root
  {
    var key, last := root + tail, |prefix| - 1;
    assert prefix <= key ==> CharAt(key, last, '/');
    assert CharAt(key, last, '/') && last >= |root| ==> CharAt(tail, last - |root|, '/');
    Nowhere(tail, last - |root|, '/');
    assert prefix <= root ==> root <= key;
  }

  lemma {:induction false} CoversNamed(a: seq<string>, b: seq<string>, name: string)
    requires SafeSegments(a) && SafeSegments(b) && SlashFree(name)
    ensures Join(a) + "/" <= Join(b) + "/" + name <==> a <= b
  {
    SlashedIsJoin(a);
    SlashedIsJoin(b);
    PrefixOnSegments(a, b);
    SlashEndsEarly(Slashed(a), Slashed(b), name);
  }

  /** Deleting the prefix of root `a` covers the manifest of root `b` exactly when
      `b` is the same path or lies beneath it, segment by segment: a/b/ never
      reaches into a/bc/. */
  lemma {:induction false} CoversExactlyBeneath(a: seq<string>, b: seq<string>)
    requires SafeSegments(a) && SafeSegments(b)
    ensures Join(a) + "/" <= Join(b) + MANIFEST <==> a <= b
  {
    NameIsSafe();
    CoversNamed(a, b, NAME);
    assert Join(b) + MANIFEST == Join(b) + "/" + NAME;
  }

  /** Where the manifest itself is stored: under the key as given, white space and all. */
  lemma {:induction false} CoversStored(p: seq<string>, ours: string, q: seq<string>, key: string)
    requires IsRootOf(p, ours) && IsRootOf(q, key)
    ensures key != "" && (Join(p) + "/" <= key <==> p <= q && !IsSpace(key[0]))
  {
    var prefix, trimmed := Join(p) + "/", TrimSpace(key);
    StartsPlain(p, ours);
    var lead, trail := TrimCuts(key);
    if lead == "" {
      assert key == trimmed + trail && key[0] == trimmed[0];
      assert SlashFree(trail);
      SlashEndsEarly(prefix, trimmed, trail);
      CoversExactlyBeneath(p, q);
    } else {
      assert key[0] == lead[0] && IsSpace(key[0]);
    }
  }

  lemma {:induction false} StartsPlain(p: seq<string>, ours: string)
    requires IsRootOf(p, ours)
    ensures Join(p) != "" && !IsSpace(Join(p)[0])
  {
    JoinStartsWithFirst(p);
    var lead, trail := TrimCuts(ours);
    assert TrimSpace(ours)[0] == Join(p)[0];
  }

  lemma SameStem(x: string, y: string, tail: string)
    ensures x + tail == y + tail <==> x == y
  {
    if x + tail == y + tail {
      assert x == (x + tail)[..|x|] && y == (y + tail)[..|y|];
    }
  }

  /** Two accepted manifest keys share a deleted prefix exactly when they agree up to surrounding white space. */
  lemma {:induction false} SamePrefixExactly(x: string, y: string)
    requires RootPrefix(x).Some? && RootPrefix(y).Some?
    ensures RootPrefix(x) == RootPrefix(y) <==> TrimSpace(x) == TrimSpace(y)
  {
    var a := RootSegments(x);
    var b := RootSegments(y);
    SameStem(Join(a), Join(b), MANIFEST);
    SameStem(Join(a), Join(b), "/");
  }

  /** Two operations under one destination prefix never cover each other's manifest. */
  lemma {:induction false} SiblingsNeverCovered(destination: seq<string>, x: string, y: string)
    requires SafeSegments(destination + [x]) && SafeSegments(destination + [y]) && x != y
    ensures !(Join(destination + [x]) + "/" <= Join(destination + [y]) + MANIFEST)
  {
    var a, b := destination + [x], destination + [y];
    CoversExactlyBeneath(a, b);
    assert a[|destination|] == x && b[|destination|] == y;
  }
}
