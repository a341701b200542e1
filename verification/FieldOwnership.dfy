/** Server-side-apply claims: the merge of claim tries, and the transfer of foreign claims
    on the operator's sections to the operator's own entry. */
module FieldOwnership {
  import opened Base

  /** A decoded claim: an object of sub-claims, or any other JSON value. */
  datatype Tree = Node(children: map<string, Tree>) | Other

  type Fields = map<string, Tree>

  function Merge(d: Tree, s: Tree): Tree
    decreases s
  {
    if d.Node? && s.Node? then
      Node(map k | k in d.children.Keys + s.children.Keys ::
        if k !in s.children then d.children[k]
        else if k !in d.children then s.children[k]
        else Merge(d.children[k], s.children[k]))
    else s
  }

  function MergeFields(d: Fields, s: Fields): Fields {
    Merge(Node(d), Node(s)).children
  }

  predicate HasPath(t: Tree, path: seq<string>) {
    path == [] || (t.Node? && path[0] in t.children && HasPath(t.children[path[0]], path[1..]))
  }

  /** No sub-claim in `d` is overwritten by something that is not an object in `s`. */
  ghost predicate Compatible(d: Tree, s: Tree)
    decreases s
  {
    && (d.Node? && s.Node? ==> forall k | k in d.children && k in s.children :: Compatible(d.children[k], s.children[k]))
    && (d.Node? && s.Other? ==> d.children == map[])
  }

  ghost predicate UnionAt(d: Tree, s: Tree, path: seq<string>) {
    HasPath(Merge(d, s), path) <==> HasPath(d, path) || HasPath(s, path)
  }

  lemma {:induction false} CompatibleUnion(d: Tree, s: Tree, path: seq<string>)
    requires Compatible(d, s)
    ensures UnionAt(d, s, path)
    decreases s
  {
    if path != [] && d.Node? && s.Node? && path[0] in d.children && path[0] in s.children {
      CompatibleUnion(d.children[path[0]], s.children[path[0]], path[1..]);
    }
  }

  lemma {:induction false} LostPath(d: Tree, s: Tree) returns (path: seq<string>)
    requires !Compatible(d, s)
    ensures !UnionAt(d, s, path)
    decreases s
  {
    if d.Node? && s.Node? {
      var k :| k in d.children && k in s.children && !Compatible(d.children[k], s.children[k]);
      var rest := LostPath(d.children[k], s.children[k]);
      path := [k] + rest;
      assert path[1..] == rest;
    } else {
      var k :| k in d.children;
      path := [k];
      assert HasPath(d, path);
    }
  }

  /** Merging is the union of the claimed paths, exactly when nothing is overwritten. */
  lemma {:induction false} MergeIsUnion(d: Tree, s: Tree)
    ensures (forall path :: UnionAt(d, s, path)) <==> Compatible(d, s)
  {
    if Compatible(d, s) {
      forall path ensures UnionAt(d, s, path) { CompatibleUnion(d, s, path); }
    } else {
      var path := LostPath(d, s);
    }
  }

  /** Field claims as the API server stores them: objects all the way down. */
  predicate Proper(t: Tree) {
    t.Node? && forall k | k in t.children :: Proper(t.children[k])
  }

  lemma {:induction false} ProperMerge(d: Tree, s: Tree)
    requires Proper(d) && Proper(s)
    ensures Compatible(d, s) && Proper(Merge(d, s))
    decreases s
  {
    forall k | k in d.children && k in s.children
      ensures Compatible(d.children[k], s.children[k]) && Proper(Merge(d.children[k], s.children[k]))
    {
      ProperMerge(d.children[k], s.children[k]);
    }
  }

  // ----- The merge key by key, in any order

  function MergedKey(d: Fields, s: Fields, k: string): Tree
    requires k in s
  {
    if k in d then Merge(d[k], s[k]) else s[k]
  }

  method MergeFieldsV1(dst: Fields, src: Fields) returns (merged: Fields)
    ensures merged == MergeFields(dst, src)
    decreases Node(src)
  {
    merged := dst;
    var keys := src.Keys;
    while keys != {}
      invariant keys <= src.Keys && merged.Keys == dst.Keys + (src.Keys - keys)
      invariant forall k | k in src && k !in keys :: merged[k] == MergedKey(dst, src, k)
      invariant forall k | k in dst && (k !in src || k in keys) :: merged[k] == dst[k]
      decreases keys
    {
      var key :| key in keys;
      var value := src[key];
      if value.Node? && key in merged && merged[key].Node? {
        assert value == Node(value.children) && value < Node(src);
        var inner := MergeFieldsV1(merged[key].children, value.children);
        merged := merged[key := Node(inner)];
      } else {
        merged := merged[key := value];
      }
      keys := keys - {key};
    }
  }

  // ----- Reclaiming

  /** The operator's sections, the section and keys that hold allocated Service fields, and
      whether the object is a Service. */
  datatype Rules = Rules(
    owner: string, apiVersion: string, sections: seq<string>, spec: string, granted: set<string>, service: bool)

  const SECTIONS := ["f:spec", "f:data", "f:binaryData", "f:stringData", "f:type"]
  const ALLOCATED := {"f:clusterIP", "f:clusterIPs", "f:ipFamilies", "f:ipFamilyPolicy", "f:healthCheckNodePort",
    "f:internalTrafficPolicy", "f:sessionAffinity", "f:sessionAffinityConfig", "f:allocateLoadBalancerNodePorts",
    "f:loadBalancerClass"}

  /** The rules the operator works by; what is proved holds for any rules. */
  function OperatorRules(owner: string, apiVersion: string, service: bool): Rules {
    Rules(owner, apiVersion, SECTIONS, "f:spec", ALLOCATED, service)
  }

  datatype Raw = Missing | Malformed | Decoded(fields: Fields)

  datatype Entry = Entry(manager: string, applied: bool, subresource: string, apiVersion: string, raw: Raw)

  datatype Result = Fails | Unchanged | Updates(entries: seq<Entry>)

  predicate Owner(rules: Rules, e: Entry) {
    e.manager == rules.owner && e.applied && e.subresource == ""
  }

  /** Foreign claims considered: on the object itself, in its own version. */
  predicate Foreign(rules: Rules, e: Entry) {
    !Owner(rules, e) && e.subresource == "" && !e.raw.Missing? && e.apiVersion == rules.apiVersion
  }

  function Stripped(rules: Rules, section: string, claim: Fields): Fields {
    if rules.service && section == rules.spec then claim - rules.granted else claim
  }

  /** The section is claimed, and by more than allocated fields of a Service. */
  predicate Moves(rules: Rules, fields: Fields, section: string) {
    && section in rules.sections && section in fields && fields[section].Node?
    && (rules.service && section == rules.spec ==> Stripped(rules, section, fields[section].children) != map[])
  }

  function Taken(rules: Rules, fields: Fields): Fields {
    map section | section in fields && Moves(rules, fields, section) ::
      Node(Stripped(rules, section, fields[section].children))
  }

  /** What stays with the foreign manager; a Service section of allocated fields alone is emptied in passing. */
  function Left(rules: Rules, fields: Fields): Fields {
    map k | k in fields && !Moves(rules, fields, k) ::
      if rules.service && k == rules.spec && k in rules.sections && fields[k].Node? then Node(map[]) else fields[k]
  }

  function KeptOf(rules: Rules, e: Entry): seq<Entry>
    requires Readable(rules, e)
  {
    if !Foreign(rules, e) || Taken(rules, e.raw.fields) == map[] then [e]
    else if Left(rules, e.raw.fields) == map[] then []
    else [e.(raw := Decoded(Left(rules, e.raw.fields)))]
  }

  predicate Readable(rules: Rules, e: Entry) {
    Foreign(rules, e) ==> e.raw.Decoded?
  }

  function TakenOf(rules: Rules, e: Entry): Fields
    requires Readable(rules, e)
  {
    if Foreign(rules, e) then Taken(rules, e.raw.fields) else map[]
  }

  /** What the loop holds after some entries: the entries kept, the claims taken, and where the owner's entry is. */
  datatype Scan = Scan(next: seq<Entry>, reclaimed: Fields, owner: int)

  function ScanEntries(rules: Rules, entries: seq<Entry>): (scan: Option<Scan>)
    ensures scan.Some? ==> -1 <= scan.value.owner < |scan.value.next|
  {
    if entries == [] then Some(Scan([], map[], -1))
    else
      var before, e := ScanEntries(rules, entries[..|entries| - 1]), entries[|entries| - 1];
      if before.None? || !Readable(rules, e) then None
      else
        assert Owner(rules, e) ==> KeptOf(rules, e) == [e];
        Some(Scan(before.value.next + KeptOf(rules, e), MergeFields(before.value.reclaimed, TakenOf(rules, e)),
                  if Owner(rules, e) then |before.value.next| else before.value.owner))
  }

  function NewOwner(rules: Rules): Entry {
    Entry(rules.owner, true, "", rules.apiVersion, Decoded(map[]))
  }

  function WithOwner(rules: Rules, scan: Scan): Scan {
    if scan.owner < 0 then scan.(next := scan.next + [NewOwner(rules)], owner := |scan.next|) else scan
  }

  function OwnerFields(raw: Raw): Option<Fields> {
    match raw
    case Missing => Some(map[])
    case Malformed => None
    case Decoded(fields) => Some(fields)
  }

  function Reclaim(rules: Rules, entries: seq<Entry>): Result {
    var scanned := ScanEntries(rules, entries);
    if scanned.None? then Fails
    else if scanned.value.reclaimed == map[] then Unchanged
    else
      var scan := WithOwner(rules, scanned.value);
      var own := OwnerFields(scan.next[scan.owner].raw);
      if own.None? then Fails
      else Updates(scan.next[scan.owner := scan.next[scan.owner].(raw := Decoded(MergeFields(own.value, scan.reclaimed)))])
  }

  // ----- The loops

  function TakenUpTo(rules: Rules, fields: Fields, n: nat): Fields
    requires n <= |rules.sections|
  {
    map section | section in fields && section in rules.sections[..n] && Moves(rules, fields, section) ::
      Node(Stripped(rules, section, fields[section].children))
  }

  function LeftUpTo(rules: Rules, fields: Fields, n: nat): Fields
    requires n <= |rules.sections|
  {
    map k | k in fields && !(k in rules.sections[..n] && Moves(rules, fields, k)) ::
      if rules.service && k == rules.spec && k in rules.sections[..n] && fields[k].Node? then Node(map[]) else fields[k]
  }

  lemma MergeOneMore(d: Fields, s: Fields, k: string, t: Tree)
    requires k !in s
    ensures MergeFields(MergeFields(d, s), map[k := t]) == MergeFields(d, s[k := t])
  {
  }

  lemma MergeNothing(d: Fields)
    ensures MergeFields(d, map[]) == d
  {
  }

  lemma OneMoreSection(rules: Rules, n: nat)
    requires n < |rules.sections|
    ensures forall k :: k in rules.sections[..n + 1] <==> k in rules.sections[..n] || k == rules.sections[n]
  {
    assert rules.sections[..n + 1] == rules.sections[..n] + [rules.sections[n]];
  }

  predicate Emptied(rules: Rules, section: string, claim: Fields) {
    rules.service && section == rules.spec && claim == map[]
  }

  lemma {:induction false} UnclaimedSection(rules: Rules, fields: Fields, n: nat)
    requires n < |rules.sections|
    requires var left := LeftUpTo(rules, fields, n); !(rules.sections[n] in left && left[rules.sections[n]].Node?)
    ensures LeftUpTo(rules, fields, n + 1) == LeftUpTo(rules, fields, n)
    ensures TakenUpTo(rules, fields, n + 1) == TakenUpTo(rules, fields, n)
  {
    OneMoreSection(rules, n);
  }

  lemma {:induction false} EmptiedSection(rules: Rules, fields: Fields, n: nat)
    requires n < |rules.sections|
    requires var left, section := LeftUpTo(rules, fields, n), rules.sections[n];
      section in left && left[section].Node? && Emptied(rules, section, Stripped(rules, section, left[section].children))
    ensures LeftUpTo(rules, fields, n + 1) == LeftUpTo(rules, fields, n)[rules.sections[n] := Node(map[])]
    ensures TakenUpTo(rules, fields, n + 1) == TakenUpTo(rules, fields, n)
  {
    OneMoreSection(rules, n);
  }

  lemma {:induction false} MovedSection(rules: Rules, fields: Fields, n: nat, claim: Fields)
    requires n < |rules.sections|
    requires var left, section := LeftUpTo(rules, fields, n), rules.sections[n];
      section in left && left[section].Node? && claim == Stripped(rules, section, left[section].children) && !Emptied(rules, section, claim)
    ensures LeftUpTo(rules, fields, n + 1) == LeftUpTo(rules, fields, n) - {rules.sections[n]}
    ensures rules.sections[n] !in TakenUpTo(rules, fields, n)
    ensures TakenUpTo(rules, fields, n + 1) == TakenUpTo(rules, fields, n)[rules.sections[n] := Node(claim)]
  {
    OneMoreSection(rules, n);
    assert rules.sections[n] in fields && Moves(rules, fields, rules.sections[n]);
  }

  method TakeSections(rules: Rules, fields: Fields, reclaimed: Fields) returns (left: Fields, more: Fields, moved: bool)
    ensures left == Left(rules, fields) && more == MergeFields(reclaimed, Taken(rules, fields))
    ensures moved <==> Taken(rules, fields) != map[]
  {
    left, more, moved := fields, reclaimed, false;
    MergeNothing(reclaimed);
    for i := 0 to |rules.sections|
      invariant left == LeftUpTo(rules, fields, i)
      invariant more == MergeFields(reclaimed, TakenUpTo(rules, fields, i))
      invariant moved <==> TakenUpTo(rules, fields, i) != map[]
    {
      var section := rules.sections[i];
      if section !in left || !left[section].Node? {
        UnclaimedSection(rules, fields, i);
        continue;
      }
      var claim := Stripped(rules, section, left[section].children);
      if Emptied(rules, section, claim) {
        EmptiedSection(rules, fields, i);
        left := left[section := Node(claim)];
        continue;
      }
      MovedSection(rules, fields, i, claim);
      MergeOneMore(reclaimed, TakenUpTo(rules, fields, i), section, Node(claim));
      more := MergeFieldsV1(more, map[section := Node(claim)]);
      left := left - {section};
      moved := true;
    }
    AllSections(rules, fields);
  }

  lemma AllSections(rules: Rules, fields: Fields)
    ensures LeftUpTo(rules, fields, |rules.sections|) == Left(rules, fields)
    ensures TakenUpTo(rules, fields, |rules.sections|) == Taken(rules, fields)
  {
    assert rules.sections[..|rules.sections|] == rules.sections;
  }
}
