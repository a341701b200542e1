/** The reclaim loop over managed-field entries, and what it does to the claims held. */
module FieldReclaim {
  import opened Base
  import opened FieldOwnership

  lemma {:induction false} ScanFails(rules: Rules, entries: seq<Entry>, i: nat)
    requires i <= |entries| && ScanEntries(rules, entries[..i]).None?
    ensures ScanEntries(rules, entries).None?
  {
    if i < |entries| {
      assert entries[..|entries| - 1][..i] == entries[..i];
      ScanFails(rules, entries[..|entries| - 1], i);
    } else {
      assert entries[..i] == entries;
    }
  }

  lemma ScanStep(rules: Rules, entries: seq<Entry>, i: nat, scan: Scan)
    requires i < |entries| && ScanEntries(rules, entries[..i]) == Some(scan) && Readable(rules, entries[i])
    ensures ScanEntries(rules, entries[..i + 1]) ==
      Some(Scan(scan.next + KeptOf(rules, entries[i]), MergeFields(scan.reclaimed, TakenOf(rules, entries[i])),
                if Owner(rules, entries[i]) then |scan.next| else scan.owner))
  {
    assert entries[..i + 1][..i] == entries[..i];
  }

  method ReclaimAuthoritativeFields(owner: string, apiVersion: string, service: bool, entries: seq<Entry>)
    returns (result: Result)
    ensures result == Reclaim(OperatorRules(owner, apiVersion, service), entries)
  {
    result := ReclaimUnder(OperatorRules(owner, apiVersion, service), entries);
  }

  method ReclaimUnder(rules: Rules, entries: seq<Entry>) returns (result: Result)
    ensures result == Reclaim(rules, entries)
  {
    var next: seq<Entry>, reclaimed: Fields, owner := [], map[], -1;
    assert entries[..0] == [];
    for i := 0 to |entries|
      invariant ScanEntries(rules, entries[..i]) == Some(Scan(next, reclaimed, owner))
    {
      var entry := entries[i];
      if Readable(rules, entry) { ScanStep(rules, entries, i, Scan(next, reclaimed, owner)); }
      MergeNothing(reclaimed);
      if Owner(rules, entry) {
        owner := |next|;
        next := next + [entry];
        continue;
      }
      if !Foreign(rules, entry) {
        next := next + [entry];
        continue;
      }
      if entry.raw.Malformed? {
        assert entries[..i + 1][..i] == entries[..i];
        ScanFails(rules, entries, i + 1);
        return Fails;
      }
      var left, moved;
      left, reclaimed, moved := TakeSections(rules, entry.raw.fields, reclaimed);
      if !moved {
        next := next + [entry];
      } else if left != map[] {
        next := next + [entry.(raw := Decoded(left))];
      } else {
        assert next + [] == next;
      }
    }
    assert entries[..|entries|] == entries;
    if reclaimed == map[] { return Unchanged; }
    if owner < 0 {
      owner := |next|;
      next := next + [NewOwner(rules)];
    }
    var own := OwnerFields(next[owner].raw);
    if own.None? { return Fails; }
    var merged := MergeFieldsV1(own.value, reclaimed);
    return Updates(next[owner := next[owner].(raw := Decoded(merged))]);
  }

  // ----- Nothing is left to take

  lemma LeftTakesNothing(rules: Rules, fields: Fields)
    ensures Taken(rules, Left(rules, fields)) == map[]
  {
  }

  predicate Quiet(rules: Rules, e: Entry) {
    Readable(rules, e) && TakenOf(rules, e) == map[]
  }

  lemma {:induction false} ScanQuiet(rules: Rules, entries: seq<Entry>)
    requires ScanEntries(rules, entries).Some?
    ensures forall e | e in ScanEntries(rules, entries).value.next :: Quiet(rules, e)
  {
    if entries != [] {
      var e := entries[|entries| - 1];
      ScanQuiet(rules, entries[..|entries| - 1]);
      if Foreign(rules, e) { LeftTakesNothing(rules, e.raw.fields); }
    }
  }

  lemma {:induction false} QuietScan(rules: Rules, entries: seq<Entry>)
    requires forall e | e in entries :: Quiet(rules, e)
    ensures ScanEntries(rules, entries).Some? && ScanEntries(rules, entries).value.reclaimed == map[]
  {
    if entries != [] {
      assert entries[|entries| - 1] in entries && forall e | e in entries[..|entries| - 1] :: e in entries;
      QuietScan(rules, entries[..|entries| - 1]);
      MergeNothing(map[]);
    }
  }

  lemma {:induction false} OwnerFound(rules: Rules, entries: seq<Entry>)
    requires ScanEntries(rules, entries).Some? && ScanEntries(rules, entries).value.owner >= 0
    ensures var scan := ScanEntries(rules, entries).value; Owner(rules, scan.next[scan.owner]) && scan.next[scan.owner] in entries
  {
    var e := entries[|entries| - 1];
    if !Owner(rules, e) { OwnerFound(rules, entries[..|entries| - 1]); }
  }

  /** The entries after the update: no foreign manager in the object's own version claims an
      operator section, but for a Service entry that holds allocated fields alone. */
  lemma {:induction false} NoForeignSection(rules: Rules, entries: seq<Entry>, e: Entry)
    requires Reclaim(rules, entries).Updates? && e in Reclaim(rules, entries).entries
    ensures Quiet(rules, e)
  {
    ScanQuiet(rules, entries);
    var scan := ScanEntries(rules, entries).value;
    if scan.owner >= 0 { OwnerFound(rules, entries); }
  }

  /** What being quiet means for one section of a foreign entry. */
  lemma QuietSection(rules: Rules, e: Entry, section: string)
    requires Quiet(rules, e) && Foreign(rules, e) && section in rules.sections && section in e.raw.fields && e.raw.fields[section].Node?
    ensures rules.service && section == rules.spec && e.raw.fields[section].children.Keys <= rules.granted
  {
    var children := e.raw.fields[section].children;
    assert section !in Taken(rules, e.raw.fields);
    assert !Moves(rules, e.raw.fields, section);
    assert (children - rules.granted).Keys == children.Keys - rules.granted;
    assert children.Keys - rules.granted == {};
    assert forall k | k in children :: k in rules.granted || k in children.Keys - rules.granted;
  }

  /** When nothing is written there was nothing to take. */
  lemma {:induction false} UnchangedWasQuiet(rules: Rules, entries: seq<Entry>)
    requires ScanEntries(rules, entries).Some? && ScanEntries(rules, entries).value.reclaimed == map[]
    ensures forall e | e in entries :: Quiet(rules, e)
  {
    if entries != [] {
      var rest, e := entries[..|entries| - 1], entries[|entries| - 1];
      var d, t := ScanEntries(rules, rest).value.reclaimed, TakenOf(rules, e);
      assert MergeFields(d, t).Keys == d.Keys + t.Keys;
      assert d.Keys == {} && t.Keys == {};
      UnchangedWasQuiet(rules, rest);
      assert entries == rest + [e];
    }
  }

  /** A second pass writes nothing. */
  lemma {:induction false} SecondPassQuiet(rules: Rules, entries: seq<Entry>)
    requires Reclaim(rules, entries).Updates?
    ensures Reclaim(rules, Reclaim(rules, entries).entries).Unchanged?
  {
    var out := Reclaim(rules, entries).entries;
    forall e | e in out ensures Quiet(rules, e) { NoForeignSection(rules, entries, e); }
    QuietScan(rules, out);
  }

  // ----- Claims are conserved

  predicate Holds(e: Entry, path: seq<string>) {
    e.raw.Decoded? && HasPath(Node(e.raw.fields), path)
  }

  predicate Held(entries: seq<Entry>, path: seq<string>) {
    exists i | 0 <= i < |entries| :: Holds(entries[i], path)
  }

  /** A claim on a field the API server allocates for a Service. */
  predicate Granted(rules: Rules, path: seq<string>) {
    rules.service && |path| >= 2 && path[0] == rules.spec && path[1] in rules.granted
  }

  predicate ProperEntry(e: Entry) {
    e.raw.Decoded? ==> Proper(Node(e.raw.fields))
  }

  /** No merge of the scan overwrites a sub-claim by something that is not an object. */
  ghost predicate ScanFits(rules: Rules, entries: seq<Entry>)
    requires ScanEntries(rules, entries).Some?
  {
    entries == [] ||
    (var rest, e := entries[..|entries| - 1], entries[|entries| - 1];
     ScanFits(rules, rest) && Compatible(Node(ScanEntries(rules, rest).value.reclaimed), Node(TakenOf(rules, e))))
  }

  /** Nor does the merge into the operator's entry. */
  ghost predicate ClaimsFit(rules: Rules, entries: seq<Entry>)
    requires Reclaim(rules, entries).Updates?
  {
    && ScanFits(rules, entries)
    && var scan := WithOwner(rules, ScanEntries(rules, entries).value);
       Compatible(Node(OwnerFields(scan.next[scan.owner].raw).value), Node(scan.reclaimed))
  }

  lemma StrippedPath(rules: Rules, section: string, claim: Fields, rest: seq<string>)
    ensures HasPath(Node(Stripped(rules, section, claim)), rest) <==>
      HasPath(Node(claim), rest) && !Granted(rules, [section] + rest)
    ensures Stripped(rules, section, claim) == map[] && HasPath(Node(claim), rest) && rest != [] ==>
      Granted(rules, [section] + rest)
  {
    var path := [section] + rest;
    if rest != [] {
      assert path[1] == rest[0];
      assert (claim - rules.granted).Keys == claim.Keys - rules.granted;
      assert rest[0] in claim - rules.granted <==> rest[0] in claim && rest[0] !in rules.granted;
    }
  }

  lemma {:induction false} TakenOrLeft(rules: Rules, fields: Fields, path: seq<string>)
    requires path != []
    ensures HasPath(Node(Taken(rules, fields)), path) ==> HasPath(Node(fields), path) && !Granted(rules, path)
    ensures HasPath(Node(Left(rules, fields)), path) ==> HasPath(Node(fields), path)
    ensures HasPath(Node(fields), path) && !Granted(rules, path) ==>
      HasPath(Node(Taken(rules, fields)), path) || HasPath(Node(Left(rules, fields)), path)
  {
    var k, rest := path[0], path[1..];
    assert path == [k] + rest;
    if k in fields && fields[k].Node? {
      assert fields[k] == Node(fields[k].children);
      StrippedPath(rules, k, fields[k].children, rest);
    }
  }

  lemma ProperTaken(rules: Rules, fields: Fields)
    requires Proper(Node(fields))
    ensures Proper(Node(Taken(rules, fields)))
  {
  }

  lemma HeldMore(a: seq<Entry>, b: seq<Entry>, path: seq<string>)
    ensures Held(a + b, path) <==> Held(a, path) || Held(b, path)
  {
    if i :| 0 <= i < |a| && Holds(a[i], path) { assert Holds((a + b)[i], path); }
    if i :| 0 <= i < |b| && Holds(b[i], path) { assert Holds((a + b)[|a| + i], path); }
    if i :| 0 <= i < |a + b| && Holds((a + b)[i], path) {
      assert i < |a| ==> Holds(a[i], path);
      assert i >= |a| ==> Holds(b[i - |a|], path);
    }
  }

  /** One entry: what it held is kept by it or taken from it, nothing is invented. */
  lemma {:induction false} EntryConserves(rules: Rules, e: Entry, path: seq<string>)
    requires Readable(rules, e) && path != []
    ensures HasPath(Node(TakenOf(rules, e)), path) ==> Holds(e, path) && !Granted(rules, path)
    ensures Held(KeptOf(rules, e), path) ==> Holds(e, path)
    ensures Holds(e, path) && !Granted(rules, path) ==>
      HasPath(Node(TakenOf(rules, e)), path) || Held(KeptOf(rules, e), path)
  {
    if Foreign(rules, e) { TakenOrLeft(rules, e.raw.fields, path); }
    assert KeptOf(rules, e) == [e] && Holds(e, path) ==> Holds(KeptOf(rules, e)[0], path);
    assert |KeptOf(rules, e)| == 1 && Holds(KeptOf(rules, e)[0], path) ==> Held(KeptOf(rules, e), path);
  }

  /** A merge claims nothing that neither side claimed, and keeps what the newer side claims. */
  lemma {:induction false} MergeClaims(d: Tree, s: Tree, path: seq<string>)
    ensures HasPath(Merge(d, s), path) ==> HasPath(d, path) || HasPath(s, path)
    ensures HasPath(s, path) ==> HasPath(Merge(d, s), path)
    decreases s
  {
    if path != [] && d.Node? && s.Node? && path[0] in d.children && path[0] in s.children {
      MergeClaims(d.children[path[0]], s.children[path[0]], path[1..]);
    }
  }

  lemma {:induction false} ScanConserves(rules: Rules, entries: seq<Entry>, path: seq<string>)
    requires ScanEntries(rules, entries).Some? && path != []
    ensures var scan := ScanEntries(rules, entries).value;
      && (HasPath(Node(scan.reclaimed), path) ==> Held(entries, path) && !Granted(rules, path))
      && (Held(scan.next, path) ==> Held(entries, path))
      && (ScanFits(rules, entries) && Held(entries, path) && !Granted(rules, path) ==>
            HasPath(Node(scan.reclaimed), path) || Held(scan.next, path))
  {
    if entries != [] {
      var rest, e := entries[..|entries| - 1], entries[|entries| - 1];
      var d, t := Node(ScanEntries(rules, rest).value.reclaimed), Node(TakenOf(rules, e));
      assert entries == rest + [e];
      ScanConserves(rules, rest, path);
      EntryConserves(rules, e, path);
      MergeClaims(d, t, path);
      if ScanFits(rules, entries) { CompatibleUnion(d, t, path); }
      HeldMore(rest, [e], path);
      HeldMore(ScanEntries(rules, rest).value.next, KeptOf(rules, e), path);
      assert Held([e], path) <==> Holds(e, path) by { assert [e][0] == e; }
    }
  }

  lemma HeldAt(entries: seq<Entry>, k: nat, e: Entry, path: seq<string>)
    requires k < |entries|
    ensures Held(entries[k := e], path) ==> Held(entries, path) || Holds(e, path)
    ensures Holds(e, path) ==> Held(entries[k := e], path)
    ensures Held(entries, path) && (Holds(entries[k], path) ==> Holds(e, path)) ==> Held(entries[k := e], path)
  {
    var out := entries[k := e];
    if Holds(e, path) { assert Holds(out[k], path); }
    if i :| 0 <= i < |entries| && Holds(entries[i], path) { assert i != k ==> Holds(out[i], path); }
  }

  /** Nothing is invented: a path claimed by someone afterwards was claimed before. And where no
      merge overwrites a sub-claim, nothing is lost but allocated Service fields. */
  lemma {:induction false} ClaimsConserved(rules: Rules, entries: seq<Entry>, path: seq<string>)
    requires Reclaim(rules, entries).Updates? && path != []
    ensures Held(Reclaim(rules, entries).entries, path) ==> Held(entries, path)
    ensures ClaimsFit(rules, entries) && !Granted(rules, path) && Held(entries, path) ==> Held(Reclaim(rules, entries).entries, path)
  {
    ScanConserves(rules, entries, path);
    var scanned := ScanEntries(rules, entries).value;
    var scan := WithOwner(rules, scanned);
    HeldMore(scanned.next, [NewOwner(rules)], path);
    assert !Holds(NewOwner(rules), path);
    OwnerMerge(rules, entries, path);
    var own := OwnerFields(scan.next[scan.owner].raw).value;
    var merged := scan.next[scan.owner].(raw := Decoded(MergeFields(own, scan.reclaimed)));
    HeldAt(scan.next, scan.owner, merged, path);
    assert Holds(scan.next[scan.owner], path) ==> Held(scan.next, path);
  }

  /** The owner's entry ends with nothing but what it held and what was taken, and with all of
      it if nothing is overwritten. */
  lemma {:induction false} OwnerMerge(rules: Rules, entries: seq<Entry>, path: seq<string>)
    requires Reclaim(rules, entries).Updates? && path != []
    ensures var scan := WithOwner(rules, ScanEntries(rules, entries).value);
      var after, before := Reclaim(rules, entries).entries[scan.owner], scan.next[scan.owner];
      && (Holds(after, path) ==> Holds(before, path) || HasPath(Node(scan.reclaimed), path))
      && (HasPath(Node(scan.reclaimed), path) ==> Holds(after, path))
      && (ClaimsFit(rules, entries) && Holds(before, path) ==> Holds(after, path))
  {
    var scan := WithOwner(rules, ScanEntries(rules, entries).value);
    var own := OwnerFields(scan.next[scan.owner].raw).value;
    MergeClaims(Node(own), Node(scan.reclaimed), path);
    if ClaimsFit(rules, entries) { CompatibleUnion(Node(own), Node(scan.reclaimed), path); }
    assert Reclaim(rules, entries).entries[scan.owner].raw == Decoded(MergeFields(own, scan.reclaimed));
  }

  /** Claims as the API server stores them, objects all the way down, never overwrite each other. */
  lemma {:induction false} ProperClaimsFit(rules: Rules, entries: seq<Entry>)
    requires Reclaim(rules, entries).Updates? && forall e | e in entries :: ProperEntry(e)
    ensures ClaimsFit(rules, entries)
  {
    ProperScanFits(rules, entries);
    var scanned := ScanEntries(rules, entries).value;
    if scanned.owner >= 0 { OwnerFound(rules, entries); }
    var scan := WithOwner(rules, scanned);
    assert Proper(Node(OwnerFields(scan.next[scan.owner].raw).value));
    ProperMerge(Node(OwnerFields(scan.next[scan.owner].raw).value), Node(scan.reclaimed));
  }

  lemma {:induction false} ProperScanFits(rules: Rules, entries: seq<Entry>)
    requires ScanEntries(rules, entries).Some? && forall e | e in entries :: ProperEntry(e)
    ensures ScanFits(rules, entries) && Proper(Node(ScanEntries(rules, entries).value.reclaimed))
  {
    if entries != [] {
      var rest, e := entries[..|entries| - 1], entries[|entries| - 1];
      assert e in entries && forall x | x in rest :: x in entries;
      ProperScanFits(rules, rest);
      if Foreign(rules, e) { ProperTaken(rules, e.raw.fields); }
      ProperMerge(Node(ScanEntries(rules, rest).value.reclaimed), Node(TakenOf(rules, e)));
    }
  }

  /** Without that condition a claim can be lost: one manager claims below a key where another,
      scanned later, has a value that is not an object. */
  lemma {:induction false} ClaimCanBeLost(rules: Rules, section: string, k: string, sub: string) returns (entries: seq<Entry>)
    requires section in rules.sections && !rules.service && "a" != rules.owner && "b" != rules.owner
    ensures Reclaim(rules, entries).Updates? && Held(entries, [section, k, sub])
    ensures !Held(Reclaim(rules, entries).entries, [section, k, sub])
  {
    var deep, flat := Node(map[k := Node(map[sub := Node(map[])])]), Node(map[k := Other]);
    var first := Entry("a", true, "", rules.apiVersion, Decoded(map[section := deep]));
    var second := Entry("b", true, "", rules.apiVersion, Decoded(map[section := flat]));
    entries := [first, second];
    LosesBelow(rules, section, deep, flat, first, second);
    DeepAndFlat(section, k, sub, deep, flat);
    assert Holds(entries[0], [section, k, sub]);
  }

  lemma {:induction false} DeepAndFlat(section: string, k: string, sub: string, deep: Tree, flat: Tree)
    requires deep == Node(map[k := Node(map[sub := Node(map[])])]) && flat == Node(map[k := Other])
    ensures HasPath(Node(map[section := deep]), [section, k, sub]) && !HasPath(Node(map[section := flat]), [section, k, sub])
  {
    var path := [section, k, sub];
    assert path[1..] == [k, sub] && [k, sub][1..] == [sub] && [sub][1..] == [];
    assert HasPath(deep.children[k], [sub]) && !HasPath(flat.children[k], [sub]);
    assert HasPath(deep, [k, sub]) && !HasPath(flat, [k, sub]);
  }

  /** Both entries are used up, and the operator ends with the later claim alone. */
  lemma {:induction false} LosesBelow(rules: Rules, section: string, deep: Tree, flat: Tree, first: Entry, second: Entry)
    requires section in rules.sections && !rules.service && deep.Node? && flat.Node? && Merge(deep, flat) == flat
    requires first == Entry("a", true, "", rules.apiVersion, Decoded(map[section := deep])) && "a" != rules.owner
    requires second == Entry("b", true, "", rules.apiVersion, Decoded(map[section := flat])) && "b" != rules.owner
    ensures Reclaim(rules, [first, second]) == Updates([NewOwner(rules).(raw := Decoded(map[section := flat]))])
  {
    UsedUp(rules, first, section, deep);
    UsedUp(rules, second, section, flat);
    assert [first, second][..1] == [first] && [first][..0] == [];
    assert MergeFields(map[], map[section := deep]) == map[section := deep];
    assert ScanEntries(rules, [first]) == Some(Scan([], map[section := deep], -1));
    assert MergeFields(map[section := deep], map[section := flat]) == map[section := flat];
    assert MergeFields(map[], map[section := flat]) == map[section := flat];
  }

  lemma {:induction false} UsedUp(rules: Rules, e: Entry, section: string, claim: Tree)
    requires section in rules.sections && !rules.service && claim.Node? && Foreign(rules, e)
    requires e.raw == Decoded(map[section := claim])
    ensures Readable(rules, e) && TakenOf(rules, e) == map[section := claim] && KeptOf(rules, e) == []
  {
    assert Left(rules, e.raw.fields) == map[];
  }

  lemma {:induction false} SectionTaken(rules: Rules, fields: Fields, path: seq<string>)
    requires |path| >= 2 && path[0] in rules.sections && HasPath(Node(fields), path) && !Granted(rules, path)
    ensures HasPath(Node(Taken(rules, fields)), path)
  {
    var k, rest := path[0], path[1..];
    assert path == [k] + rest && fields[k] == Node(fields[k].children);
    StrippedPath(rules, k, fields[k].children, rest);
  }

  lemma {:induction false} TakenJoins(rules: Rules, entries: seq<Entry>, path: seq<string>)
    requires entries != [] && ScanEntries(rules, entries).Some? && ScanFits(rules, entries)
    ensures var rest, e := entries[..|entries| - 1], entries[|entries| - 1];
      && ScanEntries(rules, rest).Some? && ScanFits(rules, rest) && Readable(rules, e)
      && (HasPath(Node(ScanEntries(rules, rest).value.reclaimed), path) || HasPath(Node(TakenOf(rules, e)), path) ==>
            HasPath(Node(ScanEntries(rules, entries).value.reclaimed), path))
  {
    var rest, e := entries[..|entries| - 1], entries[|entries| - 1];
    CompatibleUnion(Node(ScanEntries(rules, rest).value.reclaimed), Node(TakenOf(rules, e)), path);
  }

  lemma {:induction false} ScanTakes(rules: Rules, entries: seq<Entry>, i: nat, path: seq<string>)
    requires ScanEntries(rules, entries).Some? && ScanFits(rules, entries) && i < |entries|
    requires Foreign(rules, entries[i]) && Readable(rules, entries[i]) && HasPath(Node(TakenOf(rules, entries[i])), path)
    ensures HasPath(Node(ScanEntries(rules, entries).value.reclaimed), path)
  {
    TakenJoins(rules, entries, path);
    if i < |entries| - 1 { ScanTakes(rules, entries[..|entries| - 1], i, path); }
  }

  /** A claim below an operator section by anyone else, or by the operator without applying (a kubectl
      patch, say), ends up with the operator's applied entry. */
  lemma {:induction false} ForeignClaimReclaimed(rules: Rules, entries: seq<Entry>, e: Entry, path: seq<string>)
    requires !Reclaim(rules, entries).Fails? && (forall x | x in entries :: ProperEntry(x)) && e in entries
    requires (e.manager != rules.owner || !e.applied) && e.subresource == "" && e.apiVersion == rules.apiVersion
    requires |path| >= 2 && path[0] in rules.sections && Holds(e, path) && !Granted(rules, path)
    ensures Reclaim(rules, entries).Updates? && exists o | o in Reclaim(rules, entries).entries ::
      o.manager == rules.owner && o.applied && o.subresource == "" && Holds(o, path)
  {
    ProperScanFits(rules, entries);
    SectionTaken(rules, e.raw.fields, path);
    var i :| 0 <= i < |entries| && entries[i] == e;
    ScanTakes(rules, entries, i, path);
    OwnerMerge(rules, entries, path);
    var scanned := ScanEntries(rules, entries).value;
    if scanned.owner >= 0 { OwnerFound(rules, entries); }
    var scan := WithOwner(rules, scanned);
    assert Owner(rules, Reclaim(rules, entries).entries[scan.owner]);
  }

  lemma {:induction false} ScanKeeps(rules: Rules, entries: seq<Entry>, e: Entry)
    requires ScanEntries(rules, entries).Some? && e in entries && !Foreign(rules, e)
    ensures e in ScanEntries(rules, entries).value.next
  {
    var rest, last := entries[..|entries| - 1], entries[|entries| - 1];
    assert entries == rest + [last];
    if e != last { ScanKeeps(rules, rest, e); }
  }

  /** An entry for a subresource or of another version is not the operator's business: it stays as it is. */
  lemma {:induction false} OtherEntriesUntouched(rules: Rules, entries: seq<Entry>, e: Entry)
    requires Reclaim(rules, entries).Updates? && e in entries
    requires e.subresource != "" || (e.apiVersion != rules.apiVersion && (e.manager != rules.owner || !e.applied))
    ensures e in Reclaim(rules, entries).entries
  {
    ScanKeeps(rules, entries, e);
    var scanned := ScanEntries(rules, entries).value;
    if scanned.owner >= 0 { OwnerFound(rules, entries); }
    var k :| 0 <= k < |scanned.next| && scanned.next[k] == e;
    assert k != scanned.owner;
    assert Reclaim(rules, entries).entries[k] == e;
  }

  /** An allocated field is never added to the operator's claims. */
  lemma {:induction false} GrantedNeverAdded(rules: Rules, entries: seq<Entry>, path: seq<string>, e: Entry)
    requires Reclaim(rules, entries).Updates? && Granted(rules, path)
    requires e in Reclaim(rules, entries).entries && Owner(rules, e) && Holds(e, path)
    ensures exists x :: x in entries && Owner(rules, x) && Holds(x, path)
  {
    ScanConserves(rules, entries, path);
    OwnerMerge(rules, entries, path);
    OwnersScanned(rules, entries);
    var scanned := ScanEntries(rules, entries).value;
    if scanned.owner >= 0 { OwnerFound(rules, entries); }
    var scan := WithOwner(rules, scanned);
    var k :| 0 <= k < |scan.next| && Reclaim(rules, entries).entries[k] == e;
    assert k != scan.owner ==> scan.next[k] == e && e in scanned.next;
  }

  lemma {:induction false} OwnersScanned(rules: Rules, entries: seq<Entry>)
    requires ScanEntries(rules, entries).Some?
    ensures forall e | e in ScanEntries(rules, entries).value.next && Owner(rules, e) :: e in entries
  {
    if entries != [] { OwnersScanned(rules, entries[..|entries| - 1]); }
  }
}
