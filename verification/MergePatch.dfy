/** Advanced resource patches: the in-place JSON merge, compared with the algorithm of
    section 2 of RFC 7396, and the list of patches applied to one object. */
module MergePatch {
  datatype Json = Null | Text(text: string) | Literal(literal: string) | Array(items: seq<Json>) | Object(members: map<string, Json>)

  type Members = map<string, Json>

  // ----- The merge as the operator does it

  function MergedMember(t: Members, p: Members, k: string): Json
    requires k in p
    decreases Object(p), 0
  {
    if p[k].Object? && k in t && t[k].Object? then Object(Merge(t[k].members, p[k].members)) else p[k]
  }

  function Merge(t: Members, p: Members): Members
    decreases Object(p), 1
  {
    map k | k in t.Keys + p.Keys && !(k in p && p[k].Null?) :: if k in p then MergedMember(t, p, k) else t[k]
  }

  // ----- MergePatch of RFC 7396; a missing target counts as one that is not an object

  function Rfc(t: Json, p: Json): Json
    decreases p
  {
    if !p.Object? then p
    else
      var base := if t.Object? then t.members else map[];
      Object(map k | k in base.Keys + p.members.Keys && !(k in p.members && p.members[k].Null?) ::
        if k in p.members then Rfc(if k in base then base[k] else Null, p.members[k]) else base[k])
  }

  /** Drops null-valued members of objects, at every depth but inside arrays. */
  function Strip(j: Json): Json {
    if !j.Object? then j
    else Object(map k | k in j.members && !j.members[k].Null? :: Strip(j.members[k]))
  }

  predicate NullFree(j: Json) {
    j.Object? ==> forall k | k in j.members :: !j.members[k].Null? && NullFree(j.members[k])
  }

  /** Objects in the patch that find no object to merge into have no null members. */
  ghost predicate NoDanglingNulls(t: Members, p: Members)
    decreases Object(p), 1
  {
    forall k | k in p :: NoneDanglingAt(t, p, k)
  }

  ghost predicate NoneDanglingAt(t: Members, p: Members, k: string)
    requires k in p
    decreases Object(p), 0
  {
    p[k].Object? ==> if k in t && t[k].Object? then NoDanglingNulls(t[k].members, p[k].members) else NullFree(p[k])
  }

  lemma {:induction false} StripTwice(j: Json)
    ensures Strip(Strip(j)) == Strip(j)
  {
    if j.Object? {
      forall k | k in j.members ensures Strip(Strip(j.members[k])) == Strip(j.members[k]) { StripTwice(j.members[k]); }
    }
  }

  lemma {:induction false} StripFixes(j: Json)
    ensures Strip(j) == j <==> NullFree(j)
  {
    if j.Object? {
      forall k | k in j.members ensures Strip(j.members[k]) == j.members[k] <==> NullFree(j.members[k]) {
        StripFixes(j.members[k]);
      }
      if Strip(j) == j {
        assert forall k | k in j.members :: k in Strip(j).members && Strip(j).members[k] == Strip(j.members[k]);
      }
    }
  }

  lemma {:induction false} RfcOfNothing(t: Json, p: Json)
    requires !t.Object?
    ensures Rfc(t, p) == Strip(p)
    decreases p
  {
    if p.Object? {
      forall k | k in p.members ensures Rfc(Null, p.members[k]) == Strip(p.members[k]) {
        RfcOfNothing(Null, p.members[k]);
      }
    }
  }

  /** The member the RFC's algorithm computes. */
  function RfcMember(t: Members, p: Members, k: string): Json
    requires k in p
  {
    Rfc(if k in t then t[k] else Null, p[k])
  }

  /** One member of the two results, compared after dropping nulls and exactly. */
  lemma {:induction false} MemberAgrees(t: Members, p: Members, k: string)
    requires k in p && !p[k].Null?
    ensures Alike(MergedMember(t, p, k), RfcMember(t, p, k))
    ensures MergedMember(t, p, k) == RfcMember(t, p, k) <==> NoneDanglingAt(t, p, k)
    decreases Object(p), 0
  {
    if p[k].Object? {
      if k in t && t[k].Object? {
        assert p[k] == Object(p[k].members) && t[k] == Object(t[k].members);
        MergeMatchesRfc(t[k].members, p[k].members);
      } else {
        RfcOfNothing(if k in t then t[k] else Null, p[k]);
        StripTwice(p[k]);
        StripFixes(p[k]);
      }
    }
  }

  predicate Alike(a: Json, b: Json) {
    Strip(a) == Strip(b) && a.Null? == b.Null?
  }

  lemma AlikeMembers(m: Members, r: Members)
    requires m.Keys == r.Keys && forall k | k in m :: Alike(m[k], r[k])
    ensures Strip(Object(m)) == Strip(Object(r))
  {
  }

  lemma ResultMembers(t: Members, p: Members)
    ensures var m, r := Merge(t, p), Rfc(Object(t), Object(p)).members;
      && m.Keys == r.Keys
      && (forall k | k in m :: k in p ==> !p[k].Null? && m[k] == MergedMember(t, p, k) && r[k] == RfcMember(t, p, k))
      && (forall k | k in m :: k !in p ==> m[k] == r[k])
      && (forall k | k in p && !p[k].Null? :: k in m)
  {
  }

  /** The operator's merge equals MergePatch of RFC 7396 up to null-valued members, and is
      equal to it exactly when the patch leaves no null dangling. */
  lemma {:induction false} MergeMatchesRfc(t: Members, p: Members)
    ensures Strip(Object(Merge(t, p))) == Strip(Rfc(Object(t), Object(p)))
    ensures Object(Merge(t, p)) == Rfc(Object(t), Object(p)) <==> NoDanglingNulls(t, p)
    decreases Object(p), 1
  {
    var m, r := Merge(t, p), Rfc(Object(t), Object(p)).members;
    ResultMembers(t, p);
    forall k | k in m ensures Alike(m[k], r[k]) && (k in p ==> (m[k] == r[k] <==> NoneDanglingAt(t, p, k))) {
      if k in p { MemberAgrees(t, p, k); }
    }
    AlikeMembers(m, r);
    assert m == r <==> forall k | k in m :: m[k] == r[k];
    assert forall k | k in p :: k in m || NoneDanglingAt(t, p, k);
  }

  // ----- The loop over the members, in any order

  method MergeJsonMap(target: Members, patch: Members) returns (merged: Members)
    ensures merged == Merge(target, patch)
    decreases Object(patch)
  {
    merged := target;
    var keys := patch.Keys;
    while keys != {}
      invariant keys <= patch.Keys
      invariant forall k | k in patch && k !in keys :: if patch[k].Null? then k !in merged else k in merged && merged[k] == MergedMember(target, patch, k)
      invariant forall k | k !in patch || k in keys :: (k in merged <==> k in target) && (k in merged ==> merged[k] == target[k])
      decreases keys
    {
      var key :| key in keys;
      var value := patch[key];
      if value.Null? {
        merged := merged - {key};
      } else if value.Object? && key in merged && merged[key].Object? {
        assert value == Object(value.members) && value < Object(patch);
        var inner := MergeJsonMap(merged[key].members, value.members);
        merged := merged[key := Object(inner)];
      } else {
        merged := merged[key := value];
      }
      keys := keys - {key};
    }
    assert merged.Keys == Merge(target, patch).Keys;
  }
}
