/** The list of advanced patches applied to one rendered object. */
module AdvancedPatches {
  import opened Base
  import opened MergePatch

  const API_VERSION := "apiVersion"
  const KIND := "kind"
  const METADATA := "metadata"
  const NAME := "name"
  const NAMESPACE := "namespace"
  const OWNERS := "ownerReferences"

  function Member(resource: Members, k: string): Option<Json> {
    if k in resource then Some(resource[k]) else None
  }

  function Metadata(resource: Members, k: string): Option<Json> {
    if METADATA in resource && resource[METADATA].Object? then Member(resource[METADATA].members, k) else None
  }

  /** What a patch may not change. */
  datatype Identity = Identity(
    apiVersion: Option<Json>, kind: Option<Json>, name: Option<Json>, namespace: Option<Json>, owners: Option<Json>)

  function IdentityOf(resource: Members): Identity {
    Identity(Member(resource, API_VERSION), Member(resource, KIND), Metadata(resource, NAME),
             Metadata(resource, NAMESPACE), Metadata(resource, OWNERS))
  }

  // ----- One patch

  predicate Accepted(patch: Members) {
    && API_VERSION !in patch && KIND !in patch
    && (METADATA in patch && patch[METADATA].Object? ==>
          var m := patch[METADATA].members; NAME !in m && NAMESPACE !in m && OWNERS !in m)
  }

  predicate MetadataSound(patch: Members) {
    METADATA in patch ==> patch[METADATA].Object?
  }

  method ValidatePatch(patch: Members) returns (ok: bool)
    ensures ok == Accepted(patch)
  {
    if API_VERSION in patch || KIND in patch { return false; }
    if METADATA !in patch || !patch[METADATA].Object? { return true; }
    var fields, metadata := [NAME, NAMESPACE, OWNERS], patch[METADATA].members;
    for i := 0 to |fields|
      invariant forall k | 0 <= k < i :: fields[k] !in metadata
    {
      if fields[i] in metadata { return false; }
    }
    assert fields[0] !in metadata && fields[1] !in metadata && fields[2] !in metadata;
    return true;
  }

  lemma UntouchedMember(t: Members, p: Members, k: string)
    requires k !in p
    ensures Member(Merge(t, p), k) == Member(t, k)
  {
  }

  lemma UntouchedMetadata(t: Members, p: Members, k: string)
    requires METADATA in p ==> p[METADATA].Object? && k !in p[METADATA].members
    ensures Metadata(Merge(t, p), k) == Metadata(t, k)
  {
    if METADATA !in p {
      UntouchedMember(t, p, METADATA);
    } else if METADATA in t && t[METADATA].Object? {
      UntouchedMember(t[METADATA].members, p[METADATA].members, k);
    }
  }

  lemma {:induction false} DropsName(patch: Members) returns (t: Members)
    requires !MetadataSound(patch)
    ensures IdentityOf(t).name == Some(Text("")) && IdentityOf(Merge(t, patch)).name == None
  {
    t := map[METADATA := Object(map[NAME := Text("")])];
    assert Metadata(t, NAME) == Some(Text(""));
    assert Metadata(Merge(t, patch), NAME) == None;
  }

  /** An accepted patch keeps the identity of every object if and only if its metadata is
      absent or an object; null or any other value drops the name with the rest. */
  lemma {:induction false} KeepsIdentityExactly(patch: Members)
    requires Accepted(patch)
    ensures (forall t: Members :: IdentityOf(Merge(t, patch)) == IdentityOf(t)) <==> MetadataSound(patch)
  {
    if MetadataSound(patch) {
      forall t: Members ensures IdentityOf(Merge(t, patch)) == IdentityOf(t) { KeepsIdentity(t, patch); }
    } else {
      var t := DropsName(patch);
      assert IdentityOf(Merge(t, patch)) != IdentityOf(t);
    }
  }

  lemma {:induction false} KeepsIdentity(t: Members, patch: Members)
    requires Accepted(patch) && MetadataSound(patch)
    ensures IdentityOf(Merge(t, patch)) == IdentityOf(t)
  {
    UntouchedMember(t, patch, API_VERSION);
    UntouchedMember(t, patch, KIND);
    UntouchedMetadata(t, patch, NAME);
    UntouchedMetadata(t, patch, NAMESPACE);
    UntouchedMetadata(t, patch, OWNERS);
  }

  // ----- The list

  datatype Target = Target(apiVersion: string, kind: string, name: string)

  datatype Raw = Empty | Malformed | Decoded(members: Members)

  datatype Patch = Patch(target: Target, raw: Raw)

  function TextOf(j: Option<Json>): string {
    if j.Some? && j.value.Text? then j.value.text else ""
  }

  predicate Matches(target: Target, id: Identity) {
    && target.kind == TextOf(id.kind) && target.name == TextOf(id.name)
    && (target.apiVersion == "" || target.apiVersion == TextOf(id.apiVersion))
  }

  predicate ValidTarget(target: Target) {
    TrimSpace(target.kind) != "" && TrimSpace(target.name) != ""
  }

  function ApplyOne(t: Members, patch: Patch): Option<Members> {
    if !ValidTarget(patch.target) then None
    else if !Matches(patch.target, IdentityOf(t)) || patch.raw.Empty? then Some(t)
    else if patch.raw.Malformed? then None
    else if patch.raw.members == map[] then Some(t)
    else if !Accepted(patch.raw.members) then None
    else Some(Merge(t, patch.raw.members))
  }

  function ApplyAll(t: Members, patches: seq<Patch>): Option<Members>
    decreases |patches|
  {
    if patches == [] then Some(t)
    else
      var next := ApplyOne(t, patches[0]);
      if next.None? then None else ApplyAll(next.value, patches[1..])
  }

  method ApplyAdvancedResourcePatches(t: Members, patches: seq<Patch>) returns (result: Option<Members>)
    ensures result == ApplyAll(t, patches)
  {
    var current := t;
    assert patches[0..] == patches;
    for i := 0 to |patches|
      invariant ApplyAll(current, patches[i..]) == ApplyAll(t, patches)
    {
      var patch := patches[i];
      assert patches[i..][0] == patch && patches[i..][1..] == patches[i + 1..];
      if !ValidTarget(patch.target) { return None; }
      if !Matches(patch.target, IdentityOf(current)) || patch.raw.Empty? { continue; }
      if patch.raw.Malformed? { return None; }
      if patch.raw.members == map[] { continue; }
      var ok := ValidatePatch(patch.raw.members);
      if !ok { return None; }
      current := MergeJsonMap(current, patch.raw.members);
    }
    return Some(current);
  }

  /** The patches addressed to an object of this identity, in order. */
  function Addressed(id: Identity, patches: seq<Patch>): seq<Members> {
    if patches == [] then []
    else if Matches(patches[0].target, id) && patches[0].raw.Decoded?
    then [patches[0].raw.members] + Addressed(id, patches[1..])
    else Addressed(id, patches[1..])
  }

  function MergeAll(t: Members, all: seq<Members>): Members
    decreases |all|
  {
    if all == [] then t else MergeAll(Merge(t, all[0]), all[1..])
  }

  lemma MergeEmpty(t: Members)
    ensures Merge(t, map[]) == t
  {
  }

  /** A patch addressed to the object by kind and name, and version if it gives one, is merged when it is
      accepted and refused otherwise; one addressed elsewhere leaves the object alone. */
  lemma {:induction false} AddressedIsApplied(t: Members, patch: Patch, kind: string, name: string, apiVersion: string)
    requires TrimSpace(kind) != "" && TrimSpace(name) != "" && patch.raw.Decoded? && ValidTarget(patch.target)
    requires Member(t, KIND) == Some(Text(kind)) && Metadata(t, NAME) == Some(Text(name)) && Member(t, API_VERSION) == Some(Text(apiVersion))
    ensures var ours := patch.target.kind == kind && patch.target.name == name && patch.target.apiVersion in {"", apiVersion};
      ApplyOne(t, patch) == if !ours then Some(t)
                            else if Accepted(patch.raw.members) then Some(Merge(t, patch.raw.members)) else None
  {
    MergeEmpty(t);
  }

  /** An accepted list with sound metadata keeps the object's identity, so which patches
      apply can be read off the object as it was rendered. */
  lemma {:induction false} MatchingStable(t: Members, patches: seq<Patch>)
    requires ApplyAll(t, patches).Some?
    requires forall p | p in patches && p.raw.Decoded? :: MetadataSound(p.raw.members)
    ensures ApplyAll(t, patches) == Some(MergeAll(t, Addressed(IdentityOf(t), patches)))
    ensures IdentityOf(ApplyAll(t, patches).value) == IdentityOf(t)
    decreases |patches|
  {
    if patches != [] {
      var p, next := patches[0], ApplyOne(t, patches[0]).value;
      assert p in patches && forall q | q in patches[1..] :: q in patches;
      if Matches(p.target, IdentityOf(t)) && p.raw.Decoded? {
        if p.raw.members == map[] { MergeEmpty(t); } else { KeepsIdentity(t, p.raw.members); }
        var rest := Addressed(IdentityOf(t), patches[1..]);
        assert ([p.raw.members] + rest)[1..] == rest;
      }
      MatchingStable(next, patches[1..]);
    }
  }
}
