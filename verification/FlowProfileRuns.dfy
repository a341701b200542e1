/** Runs of the flow-profile finaliser: profiles come and go between the list it decides on
    and the launch of the deletion Job. */
module FlowProfileRuns {
  import opened Base
  import opened FlowProfileClaims

  /** `launching` is the profile whose deletion Job has been decided on and not launched yet. */
  datatype System = System(profiles: map<string, Profile>, launching: Option<Profile>)

  datatype Step =
    | Decides(name: string, listed: seq<Profile>, w: World)
    | Launches
    | Crashes
    | Creates(p: Profile)
    | Deletes(name: string)
    | Removes(name: string)

  /** The profiles in some order, as a list call returns them. */
  ghost predicate Lists(listed: seq<Profile>, profiles: map<string, Profile>) {
    Namespace(listed) && forall p :: p in listed <==> p.name in profiles && profiles[p.name] == p
  }

  ghost predicate Init(s: System) {
    s == System(map[], None)
  }

  ghost predicate Possible(s: System, step: Step) {
    match step
    case Decides(name, listed, _) =>
      s.launching.None? && name in s.profiles && s.profiles[name].name == name && s.profiles[name].deleting && Lists(listed, s.profiles)
    case Launches => s.launching.Some?
    case Crashes => true
    case Creates(p) => p.name !in s.profiles && !p.deleting
    case Deletes(name) => name in s.profiles
    case Removes(name) => name in s.profiles
  }

  /** The UUID and the Tamoss a profile names are immutable, so it only ever becomes one being deleted. */
  ghost function After(s: System, step: Step): System
    requires Possible(s, step)
  {
    match step
    case Decides(name, listed, w) =>
      if Finalise(s.profiles[name], listed, w).LaunchDeletion? then s.(launching := Some(s.profiles[name])) else s
    case Launches => s.(launching := None)
    case Crashes => s.(launching := None)
    case Creates(p) => s.(profiles := s.profiles[p.name := p])
    case Deletes(name) => s.(profiles := s.profiles[name := s.profiles[name].(deleting := true)])
    case Removes(name) => s.(profiles := s.profiles - {name})
  }

  ghost predicate Follows(s: System, step: Step, t: System) {
    Possible(s, step) && t == After(s, step)
  }

  ghost predicate IsRun(run: seq<System>, steps: seq<Step>) {
    && |run| == |steps| + 1 && Init(run[0])
    && forall i, j | 0 <= i < j < |run| && j == i + 1 :: Follows(run[i], steps[i], run[j])
  }

  /** Another live profile claims what `p` claims. */
  predicate Rivals(s: System, p: Profile, q: Profile) {
    q.name in s.profiles && s.profiles[q.name] == q && !q.deleting && q.name != p.name && Claims(q, p.tamoss, p.id)
  }

  /** `q` was created while the launch for `p` was decided on and pending. */
  ghost predicate CreatedMeanwhile(run: seq<System>, steps: seq<Step>, i: nat, p: Profile, q: Profile) {
    exists k | 0 <= k < i && k < |steps| && k < |run| :: steps[k] == Creates(q) && run[k].launching == Some(p)
  }

  lemma {:induction false} DecidedUnclaimed(s: System, step: Step, q: Profile)
    requires Possible(s, step) && step.Decides? && After(s, step).launching.Some?
    ensures !Rivals(s, s.profiles[step.name], q)
  {
    var p := s.profiles[step.name];
    DeletesOnlyUnclaimed(p, step.listed, step.w);
    assert Rivals(s, p, q) ==> LiveClaimant(q, step.listed, p.tamoss, p.id);
  }

  /** In every run, when a deletion Job is about to be launched, another live profile claims
      the same UUID only if it was created after the claims were listed. */
  lemma {:induction false} LaunchRivalsAreLate(run: seq<System>, steps: seq<Step>, i: nat, q: Profile)
    requires IsRun(run, steps) && i < |run| && run[i].launching.Some? && Rivals(run[i], run[i].launching.value, q)
    ensures CreatedMeanwhile(run, steps, i, run[i].launching.value, q)
  {
    var s, step, t := run[i - 1], steps[i - 1], run[i];
    assert Follows(s, step, t);
    if step.Decides? {
      DecidedUnclaimed(s, step, q);
    } else if step != Creates(q) {
      assert Rivals(s, t.launching.value, q);
      LaunchRivalsAreLate(run, steps, i - 1, q);
    }
  }

  /** And that can happen: a claim made in the gap is not seen. */
  lemma {:induction false} LateClaimMissed() returns (run: seq<System>, steps: seq<Step>, p: Profile, q: Profile)
    ensures IsRun(run, steps) && var s := run[|run| - 1]; s.launching == Some(p) && Rivals(s, p, q)
  {
    var live := Profile("a", "", "", 0, false);
    p, q := live.(deleting := true), Profile("b", "", "", 0, false);
    var w := World(true, true, true, NoJob, true, false, NoJob);
    var s0 := System(map[], None);
    var s1 := System(map["a" := live], None);
    var s2 := System(map["a" := p], None);
    var s3 := System(map["a" := p], Some(p));
    var s4 := System(map["a" := p, "b" := q], Some(p));
    Alone(p, w);
    run, steps := [s0, s1, s2, s3, s4], [Creates(live), Deletes("a"), Decides("a", [p], w), Creates(q)];
    assert Lists([p], s2.profiles);
    assert Follows(s0, steps[0], s1) && Follows(s1, steps[1], s2) && Follows(s2, steps[2], s3) && Follows(s3, steps[3], s4);
    forall i, j | 0 <= i < j < |run| && j == i + 1 ensures Follows(run[i], steps[i], run[j]) {
      assert i == 0 || i == 1 || i == 2 || i == 3;
    }
  }

  lemma {:induction false} Alone(p: Profile, w: World)
    requires w == World(true, true, true, NoJob, true, false, NoJob)
    ensures Finalise(p, [p], w).LaunchDeletion?
  {
    DeletesOnlyUnclaimed(p, [p], w);
  }
}
