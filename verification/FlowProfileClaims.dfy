/** Flow profiles that claim the same UUID: the election among live claimants, and the
    finaliser that decides whether the registered profile may be deleted. */
module FlowProfileClaims {
  import opened Base
  import Sorting

  /** `id` is the UUID after defaulting. */
  datatype Profile = Profile(name: string, tamoss: string, id: string, created: int, deleting: bool)

  predicate Claims(p: Profile, tamoss: string, id: string) {
    p.tamoss == tamoss && p.id == id
  }

  // ----- Candidates, oldest first, then by name

  predicate Before(a: Profile, b: Profile) {
    a.created < b.created || (a.created == b.created && TextLess(a.name, b.name))
  }

  predicate Eligible(current: Profile, p: Profile) {
    Claims(p, current.tamoss, current.id) && (!p.deleting || p.name == current.name)
  }

  function EligibleOf(current: Profile, listed: seq<Profile>): seq<Profile> {
    if listed == [] then []
    else if Eligible(current, listed[0]) then [listed[0]] + EligibleOf(current, listed[1..])
    else EligibleOf(current, listed[1..])
  }

  function Candidates(current: Profile, listed: seq<Profile>): seq<Profile> {
    Sorting.Sort(Before, EligibleOf(current, listed))
  }

  function Winner(current: Profile, listed: seq<Profile>): string {
    var candidates := Candidates(current, listed);
    if candidates == [] then current.name else candidates[0].name
  }

  // ----- What the candidates are

  /** Names are unique within a namespace. */
  ghost predicate Namespace(listed: seq<Profile>) {
    forall i, j | 0 <= i < j < |listed| :: listed[i].name != listed[j].name
  }

  lemma BeforeOrder(a: Profile, b: Profile)
    ensures Before(a, b) ==> !Before(b, a)
    ensures Before(a, b) || Before(b, a) || (a.created == b.created && a.name == b.name)
  {
    TextOrder(a.name, b.name);
  }

  lemma BeforeTransitive(a: Profile, b: Profile, c: Profile)
    requires !Before(b, a) && !Before(c, b)
    ensures !Before(c, a)
  {
    BeforeOrder(a, b);
    BeforeOrder(b, c);
    BeforeOrder(a, c);
    if a.created == b.created == c.created && TextLess(a.name, b.name) && TextLess(b.name, c.name) {
      TextTransitive(a.name, b.name, c.name);
    }
  }

  lemma BeforeIsOrder()
    ensures Sorting.Order(Before)
  {
    forall a, b ensures Before(a, b) ==> !Before(b, a) { BeforeOrder(a, b); }
    forall a, b, c | !Before(b, a) && !Before(c, b) ensures !Before(c, a) { BeforeTransitive(a, b, c); }
  }

  lemma {:induction false} EligibleExactly(current: Profile, listed: seq<Profile>)
    ensures forall p :: p in EligibleOf(current, listed) <==> p in listed && Eligible(current, p)
  {
    if listed != [] {
      EligibleExactly(current, listed[1..]);
      assert listed == [listed[0]] + listed[1..];
    }
  }

  lemma {:induction false} CandidatesOrdered(current: Profile, listed: seq<Profile>)
    ensures Sorting.Ordered(Before, Candidates(current, listed))
    ensures forall p :: p in Candidates(current, listed) <==> p in listed && Eligible(current, p)
  {
    BeforeIsOrder();
    EligibleExactly(current, listed);
    Sorting.SortOrdered(Before, EligibleOf(current, listed));
  }

  /** The oldest eligible profile, names breaking ties; unique whatever the order of the list. */
  ghost predicate Heads(w: Profile, current: Profile, listed: seq<Profile>) {
    w in listed && Eligible(current, w) && forall q | q in listed && Eligible(current, q) && q.name != w.name :: Before(w, q)
  }

  lemma {:induction false} FirstHeads(current: Profile, listed: seq<Profile>)
    requires Namespace(listed) && Candidates(current, listed) != []
    ensures Heads(Candidates(current, listed)[0], current, listed)
  {
    var candidates := Candidates(current, listed);
    CandidatesOrdered(current, listed);
    assert candidates[0] in candidates;
    forall q | q in listed && Eligible(current, q) && q.name != candidates[0].name ensures Before(candidates[0], q) {
      var j :| 0 <= j < |candidates| && candidates[j] == q;
      BeforeOrder(candidates[0], q);
    }
  }

  lemma OneHead(v: Profile, w: Profile, current: Profile, listed: seq<Profile>)
    requires Heads(v, current, listed) && Heads(w, current, listed)
    ensures v.name == w.name
  {
    BeforeOrder(v, w);
  }

  lemma {:induction false} WinnerIs(w: Profile, current: Profile, listed: seq<Profile>)
    requires Namespace(listed) && Heads(w, current, listed)
    ensures Winner(current, listed) == w.name
  {
    CandidatesOrdered(current, listed);
    FirstHeads(current, listed);
    OneHead(w, Candidates(current, listed)[0], current, listed);
  }

  ghost predicate LiveClaimant(p: Profile, listed: seq<Profile>, tamoss: string, id: string) {
    p in listed && !p.deleting && Claims(p, tamoss, id)
  }

  /** Exactly one live claimant wins, and every live claimant computes it, in whatever
      order the profiles are listed to each. */
  lemma {:induction false} ElectionAgrees(listed: seq<Profile>, tamoss: string, id: string, some: Profile) returns (w: Profile)
    requires Namespace(listed) && LiveClaimant(some, listed, tamoss, id)
    ensures LiveClaimant(w, listed, tamoss, id)
    ensures forall p, again: seq<Profile> | LiveClaimant(p, listed, tamoss, id) && SameProfiles(listed, again) :: Winner(p, again) == w.name
    ensures forall p | LiveClaimant(p, listed, tamoss, id) :: Winner(p, listed) == p.name <==> p == w
    ensures forall p | LiveClaimant(p, listed, tamoss, id) && p != w ::
      w.created < p.created || (w.created == p.created && TextLess(w.name, p.name))
  {
    CandidatesOrdered(some, listed);
    FirstHeads(some, listed);
    w := Candidates(some, listed)[0];
    assert w in listed && Eligible(some, w);
    SoleOfName(listed, some, w);
    forall p, again: seq<Profile> | LiveClaimant(p, listed, tamoss, id) && SameProfiles(listed, again)
      ensures Winner(p, again) == w.name
    {
      forall q | q in listed && Eligible(p, q) && q.name != w.name ensures Before(w, q) {
        SoleOfName(listed, p, q);
      }
      assert Heads(w, p, again);
      WinnerIs(w, p, again);
    }
    forall p | LiveClaimant(p, listed, tamoss, id) && p != w ensures Before(w, p) {
      SoleOfName(listed, p, w);
    }
    forall p | LiveClaimant(p, listed, tamoss, id) ensures Winner(p, listed) == p.name <==> p == w {
      assert SameProfiles(listed, listed);
      SoleOfName(listed, p, w);
    }
  }

  ghost predicate SameProfiles(a: seq<Profile>, b: seq<Profile>) {
    Namespace(a) && Namespace(b) && forall p :: p in a <==> p in b
  }

  lemma SoleOfName(listed: seq<Profile>, p: Profile, q: Profile)
    requires Namespace(listed) && p in listed && q in listed
    ensures p.name == q.name ==> p == q
  {
    var i :| 0 <= i < |listed| && listed[i] == p;
    var j :| 0 <= j < |listed| && listed[j] == q;
    assert i == j || listed[i].name != listed[j].name;
  }

  // ----- The finaliser

  datatype JobView = NoJob | Pending | Succeeded | Failed(inUse: bool)

  /** What the finaliser reads besides the other profiles. */
  datatype World = World(
    resolves: bool, tamossUsable: bool, recorded: bool, registration: JobView,
    schemaReady: bool, drifted: bool, deletion: JobView)

  datatype Outcome =
    | Release
    | BlockedBy(claimant: string)
    | AwaitRegistration
    | AwaitSchema
    | LaunchDeletion
    | RetryDeletion
    | BlockedInUse
    | AwaitDeletion

  /** The profile is known to TAMS: recorded, or its registration Job succeeded. */
  predicate Registered(w: World) {
    w.recorded || w.registration.Succeeded?
  }

  function AfterClaims(w: World): Outcome {
    if w.tamossUsable && !w.recorded && w.registration.Pending? then AwaitRegistration
    else if w.tamossUsable && Registered(w) then
      if !w.schemaReady then AwaitSchema
      else if w.deletion.NoJob? then LaunchDeletion
      else if w.drifted then RetryDeletion
      else if w.deletion.Failed? then if w.deletion.inUse then BlockedInUse else RetryDeletion
      else if w.deletion.Pending? then AwaitDeletion
      else Release
    else Release
  }

  function Finalise(p: Profile, listed: seq<Profile>, w: World): Outcome {
    if !w.resolves then Release
    else
      var claims := Candidates(p, listed);
      if claims != [] && claims[0].name != p.name then Release
      else if |claims| > 1 then BlockedBy(claims[1].name)
      else AfterClaims(w)
  }

  /** Another live profile claims the same UUID. */
  ghost predicate Contested(p: Profile, listed: seq<Profile>) {
    exists q :: LiveClaimant(q, listed, p.tamoss, p.id) && q.name != p.name
  }

  ghost predicate OldestClaim(p: Profile, listed: seq<Profile>) {
    forall q | LiveClaimant(q, listed, p.tamoss, p.id) && q.name != p.name :: Before(p, q)
  }

  lemma {:induction false} ClaimsOf(p: Profile, listed: seq<Profile>)
    requires Namespace(listed) && p in listed
    ensures var claims := Candidates(p, listed);
      && claims != [] && (claims[0].name == p.name <==> OldestClaim(p, listed))
      && (|claims| > 1 ==> Contested(p, listed))
      && (Contested(p, listed) ==> |claims| > 1)
  {
    var claims := Candidates(p, listed);
    CandidatesOrdered(p, listed);
    assert Eligible(p, p);
    FirstHeads(p, listed);
    forall q | q in listed ensures q.name == p.name ==> q == p { SoleOfName(listed, p, q); }
    if OldestClaim(p, listed) && claims[0].name != p.name {
      BeforeOrder(p, claims[0]);
    }
    if |claims| > 1 {
      DistinctCandidates(p, listed);
      var q := if claims[0].name == p.name then claims[1] else claims[0];
      assert q in claims;
      assert LiveClaimant(q, listed, p.tamoss, p.id) && q.name != p.name;
    }
    if q :| LiveClaimant(q, listed, p.tamoss, p.id) && q.name != p.name {
      assert p in claims && q in claims;
    }
  }

  lemma {:induction false} DistinctCandidates(current: Profile, listed: seq<Profile>)
    requires Namespace(listed)
    ensures Namespace(Candidates(current, listed))
  {
    DistinctEligible(current, listed);
    DistinctSorted(EligibleOf(current, listed));
  }

  lemma {:induction false} DistinctEligible(current: Profile, listed: seq<Profile>)
    requires Namespace(listed)
    ensures Namespace(EligibleOf(current, listed))
  {
    if listed != [] {
      var rest := listed[1..];
      assert forall i | 0 <= i < |rest| :: rest[i] == listed[i + 1];
      DistinctEligible(current, rest);
      EligibleExactly(current, rest);
      forall p | p in EligibleOf(current, rest) ensures p.name != listed[0].name {
        var k :| 0 <= k < |rest| && rest[k] == p;
        assert listed[k + 1] == p;
      }
    }
  }

  lemma {:induction false} DistinctSorted(s: seq<Profile>)
    requires Namespace(s)
    ensures Namespace(Sorting.Sort(Before, s))
  {
    if s != [] {
      var rest := s[1..];
      assert forall i | 0 <= i < |rest| :: rest[i] == s[i + 1];
      DistinctSorted(rest);
      BeforeIsOrder();
      Sorting.SortOrdered(Before, rest);
      forall p | p in Sorting.Sort(Before, rest) ensures p.name != s[0].name {
        var k :| 0 <= k < |rest| && rest[k] == p;
        assert s[k + 1] == p;
      }
      InsertDistinct(s[0], Sorting.Sort(Before, rest));
    }
  }

  lemma {:induction false} InsertDistinct(p: Profile, s: seq<Profile>)
    requires Namespace(s) && forall q | q in s :: q.name != p.name
    ensures Namespace(Sorting.Insert(Before, p, s)) && forall q :: q in Sorting.Insert(Before, p, s) <==> q == p || q in s
  {
    if s == [] || !Before(s[0], p) {
      assert Sorting.Insert(Before, p, s) == [p] + s;
    } else {
      var rest := s[1..];
      assert s == [s[0]] + rest;
      InsertDistinct(p, rest);
      var r := Sorting.Insert(Before, p, rest);
      assert Sorting.Insert(Before, p, s) == [s[0]] + r;
      forall q | q in r ensures q.name != s[0].name {
        if q in rest {
          var k :| 0 <= k < |rest| && rest[k] == q;
          assert s[k + 1] == q;
        }
      }
    }
  }

  /** What the finaliser does, in terms of the other live claimants: an older one inherits
      the registered profile, a younger one blocks the deletion, and with none the deletion
      Job decides. */
  lemma {:induction false} FinaliseByClaims(p: Profile, listed: seq<Profile>, w: World)
    requires Namespace(listed) && p in listed && w.resolves
    ensures !OldestClaim(p, listed) ==> Finalise(p, listed, w) == Release
    ensures OldestClaim(p, listed) && Contested(p, listed) ==>
      exists q :: LiveClaimant(q, listed, p.tamoss, p.id) && q.name != p.name && Finalise(p, listed, w) == BlockedBy(q.name)
    ensures !Contested(p, listed) ==> Finalise(p, listed, w) == AfterClaims(w)
  {
    ClaimsOf(p, listed);
    var claims := Candidates(p, listed);
    if |claims| > 1 && claims[0].name == p.name {
      CandidatesOrdered(p, listed);
      DistinctCandidates(p, listed);
      assert claims[1] in claims && claims[1].name != p.name;
      assert LiveClaimant(claims[1], listed, p.tamoss, p.id);
    }
  }

  /** With nobody else claiming the UUID, what holds the profile back and what lets it go. */
  lemma {:induction false} UnclaimedFollowsJobs(p: Profile, listed: seq<Profile>, w: World)
    requires Namespace(listed) && p in listed && w.resolves && !Contested(p, listed)
    ensures var outcome := Finalise(p, listed, w);
      var deletes := w.tamossUsable && (w.recorded || w.registration.Succeeded?) && w.schemaReady && !w.deletion.NoJob?;
      && (outcome == AwaitRegistration <==> w.tamossUsable && !w.recorded && w.registration.Pending?)
      && (outcome == AwaitSchema <==> w.tamossUsable && (w.recorded || w.registration.Succeeded?) && !w.schemaReady)
      && (outcome == RetryDeletion <==> deletes && (w.drifted || w.deletion == Failed(false)))
      && (outcome == BlockedInUse <==> deletes && !w.drifted && w.deletion == Failed(true))
      && (outcome == AwaitDeletion <==> deletes && !w.drifted && w.deletion.Pending?)
      && (outcome == Release <==>
            || !w.tamossUsable
            || (!w.recorded && (w.registration.NoJob? || w.registration.Failed?))
            || (deletes && !w.drifted && w.deletion.Succeeded?))
  {
    FinaliseByClaims(p, listed, w);
  }

  /** The registered profile is deleted only when nobody else claims it, and is not left
      behind when nobody does. */
  lemma {:induction false} DeletesOnlyUnclaimed(p: Profile, listed: seq<Profile>, w: World)
    requires Namespace(listed) && p in listed
    ensures Finalise(p, listed, w).LaunchDeletion? <==>
      && w.resolves && !Contested(p, listed) && w.tamossUsable && Registered(w)
      && w.schemaReady && w.deletion.NoJob?
    ensures Finalise(p, listed, w).Release? && w.resolves && w.tamossUsable && Registered(w) && !Contested(p, listed) ==>
      w.deletion.Succeeded?
  {
    ClaimsOf(p, listed);
  }

  /** A deleting profile waits only for live ones: where every claimant is being deleted
      none of them is blocked by another, so finalisers never deadlock each other. */
  lemma {:induction false} WaitsOnlyForLive(p: Profile, listed: seq<Profile>, w: World)
    requires Namespace(listed) && p in listed && p.deleting && Finalise(p, listed, w).BlockedBy?
    ensures exists q :: LiveClaimant(q, listed, p.tamoss, p.id) && q.name == Finalise(p, listed, w).claimant
  {
    var claims := Candidates(p, listed);
    CandidatesOrdered(p, listed);
    ClaimsOf(p, listed);
    DistinctCandidates(p, listed);
    assert claims[1] in claims && claims[0].name == p.name;
    assert LiveClaimant(claims[1], listed, p.tamoss, p.id);
  }
}
