/** The sizes visited by progressive scaling, planned separately by the AKS and the EKS client. */
module ScalingPlan {
  import opened Common

  datatype PlanError = ZeroStep | NoSteps

  function Distance(a: int, b: int): nat {
    if a < b then b - a else a - b
  }

  /** Python's `range(lo, hi, step)`. */
  function Range(lo: int, hi: int, step: int): seq<int>
    requires step != 0
    decreases if step > 0 then hi - lo else lo - hi
  {
    if (step > 0 && lo < hi) || (step < 0 && lo > hi) then [lo] + Range(lo + step, hi, step) else []
  }

  /** The reference plan: full steps towards the target, then whatever is left. */
  function Plan(current: int, target: int, step: nat): (plan: seq<int>)
    requires step > 0
    ensures plan != []
    decreases Distance(current, target)
  {
    if Distance(current, target) <= step then [target]
    else
      var next := if current < target then current + step else current - step;
      [next] + Plan(next, target, step)
  }

  // ---- Properties of the plan ----

  predicate Between(a: int, x: int, b: int) {
    a < x <= b || b <= x < a
  }

  /** Every size moves strictly from `current` towards `target`. */
  ghost predicate StrictlyApproaches(plan: seq<int>, current: int, target: int) {
    && (forall i :: 0 <= i < |plan| ==> Between(current, plan[i], target))
    && (forall i, j :: 0 <= i < j < |plan| ==> Between(plan[i], plan[j], target))
  }

  /** The distance between consecutive sizes, the first one counted from `current`. */
  function Gap(plan: seq<int>, current: int, i: nat): nat
    requires i < |plan|
  {
    Distance(if i == 0 then current else plan[i - 1], plan[i])
  }

  /** A plan is strictly monotone, ends at the target, takes full steps except perhaps the last,
      and is as short as such a plan can be. */
  lemma {:induction false} PlanIsProgressive(current: int, target: int, step: nat)
    requires step > 0 && current != target
    ensures var plan := Plan(current, target, step);
      && StrictlyApproaches(plan, current, target)
      && plan[|plan| - 1] == target
      && (forall i :: 0 <= i < |plan| - 1 ==> Gap(plan, current, i) == step)
      && 1 <= Gap(plan, current, |plan| - 1) <= step
      && |plan| == CeilDiv(Distance(current, target), step)
    decreases Distance(current, target)
  {
    if Distance(current, target) <= step {
      CeilDivIs(Distance(current, target), step, 1);
    } else {
      var plan := Plan(current, target, step);
      var next := plan[0];
      var rest := plan[1..];
      assert rest == Plan(next, target, step);
      PlanIsProgressive(next, target, step);
      CeilDivStep(Distance(current, target), step);
      ApproachesFurther(plan, current, target, next);
      forall i | 0 <= i < |plan| - 1 ensures Gap(plan, current, i) == step {
        assert i > 0 ==> Gap(plan, current, i) == Gap(rest, next, i - 1);
      }
      assert Gap(plan, current, |plan| - 1) == Gap(rest, next, |rest| - 1);
    }
  }

  /** Every size of the plan is so many steps away. */
  lemma {:induction false} PlanIsArithmetic(current: int, target: int, step: nat, i: nat)
    requires step > 0 && current != target && i < |Plan(current, target, step)|
    ensures Plan(current, target, step)[i] ==
      if current < target then Min(current + (i + 1) * step, target) else Max(current - (i + 1) * step, target)
    decreases Distance(current, target)
  {
    StepsAdd(step, i);
    if Distance(current, target) > step && i > 0 {
      PlanIsArithmetic(Plan(current, target, step)[0], target, step, i - 1);
    }
  }

  lemma StepsAdd(step: nat, i: nat)
    ensures (i + 1) * step == step + i * step && i * step >= 0
    ensures i > 0 ==> (i - 1 + 1) * step == i * step
  {
  }

  lemma ApproachesFurther(plan: seq<int>, current: int, target: int, next: int)
    requires plan != [] && plan[0] == next && Between(current, next, target)
    requires StrictlyApproaches(plan[1..], next, target)
    ensures StrictlyApproaches(plan, current, target)
  {
    var rest := plan[1..];
    assert forall i :: 0 < i < |plan| ==> plan[i] == rest[i - 1];
  }

  lemma CeilDivIs(n: int, d: int, q: int)
    requires d > 0 && d * (q - 1) < n <= d * q
    ensures CeilDiv(n, d) == q
  {
    var p := CeilDiv(n, d);
    if p < q {
      Scale(d, p, q - 1);
    } else if q < p {
      Scale(d, q, p - 1);
    }
  }

  lemma CeilDivStep(d: nat, step: nat)
    requires d > step > 0
    ensures CeilDiv(d, step) == 1 + CeilDiv(d - step, step)
  {
    var q := CeilDiv(d - step, step);
    assert step * (q - 1) == step * q - step && step * (q + 1) == step * q + step;
    CeilDivIs(d, step, q + 1);
  }

  lemma {:induction false} PlanWithin(current: int, target: int, step: nat, lo: int, hi: int)
    requires step > 0 && lo <= current <= hi && lo <= target <= hi
    ensures forall i :: 0 <= i < |Plan(current, target, step)| ==> lo <= Plan(current, target, step)[i] <= hi
    decreases Distance(current, target)
  {
    if Distance(current, target) > step {
      PlanWithin(Plan(current, target, step)[0], target, step, lo, hi);
    }
  }

  // ---- The two planners ----

  /** A range with the target appended when the range stops short of it. */
  function Closed(steps: seq<int>, target: int): seq<int> {
    if steps != [] && steps[|steps| - 1] == target then steps else steps + [target]
  }

  /** The sizes of a range start at `lo`, stay before `hi` and never pass the last one. */
  ghost predicate Towards(r: seq<int>, lo: int, hi: int, step: int) {
    if step > 0 then forall i :: 0 <= i < |r| ==> lo <= r[i] < hi && r[i] <= r[|r| - 1]
    else forall i :: 0 <= i < |r| ==> hi < r[i] <= lo && r[|r| - 1] <= r[i]
  }

  lemma {:induction false} RangeTowards(lo: int, hi: int, step: int)
    requires step != 0
    ensures Towards(Range(lo, hi, step), lo, hi, step)
    decreases if step > 0 then hi - lo else lo - hi
  {
    if (step > 0 && lo < hi) || (step < 0 && lo > hi) {
      var tail := Range(lo + step, hi, step);
      RangeTowards(lo + step, hi, step);
      TowardsCons(tail, lo, hi, step);
    }
  }

  lemma TowardsCons(tail: seq<int>, lo: int, hi: int, step: int)
    requires step != 0 && Towards(tail, lo + step, hi, step)
    requires if step > 0 then lo < hi else lo > hi
    ensures Towards([lo] + tail, lo, hi, step)
  {
    if tail != [] {
      assert ([lo] + tail)[|tail|] == tail[|tail| - 1];
    }
  }

  /** Closing the range at the target gives the reference plan. */
  lemma {:induction false} ClosedRangeIsPlan(current: int, target: int, past: int, step: int)
    requires step != 0 && (step > 0 <==> current < target) && current != target
    requires past == if step > 0 then target + 1 else target - 1
    ensures Closed(Range(current + step, past, step), target) == Plan(current, target, if step > 0 then step else -step)
    decreases Distance(current, target)
  {
    var next := current + step;
    var tail := Range(next + step, past, step);
    if Distance(current, target) > if step > 0 then step else -step {
      ClosedRangeIsPlan(next, target, past, step);
      assert Range(next, past, step) == [next] + tail;
      ClosedCons(next, tail, target);
    } else {
      assert tail == [];
    }
  }

  lemma ClosedCons(x: int, tail: seq<int>, target: int)
    requires x != target
    ensures Closed([x] + tail, target) == [x] + Closed(tail, target)
  {
    if tail != [] {
      assert ([x] + tail)[|tail|] == tail[|tail| - 1];
    }
  }

  /** The range both planners start from. */
  function StepRange(current: int, target: int, step: int): seq<int>
    requires step != 0
  {
    if current < target then Range(current + step, target + 1, step) else Range(current - step, target - 1, -step)
  }

  lemma StepRangeIsPlan(current: int, target: int, step: int)
    requires step != 0
    ensures var r := StepRange(current, target, step);
      && (r == [] <==> step < 0 || Distance(current, target) < step)
      && (step > 0 && current != target ==> Closed(r, target) == Plan(current, target, step))
  {
    if step > 0 && current < target {
      ClosedRangeIsPlan(current, target, target + 1, step);
    } else if step > 0 && current > target {
      ClosedRangeIsPlan(current, target, target - 1, -step);
    }
  }

  lemma StepRangeStaysBefore(current: int, target: int, step: int)
    requires step != 0
    ensures var r := StepRange(current, target, step);
      && (forall i :: 0 <= i < |r| ==> if current < target then r[i] <= target else target <= r[i])
      && (r != [] && r[|r| - 1] != target ==> target !in r)
  {
    var r := StepRange(current, target, step);
    if current < target {
      RangeTowards(current + step, target + 1, step);
    } else {
      RangeTowards(current - step, target - 1, -step);
    }
    if i :| 0 <= i < |r| && r[i] == target {
      assert r[|r| - 1] == target;
    }
  }

  /** What the AKS client plans, for every step size a caller may pass. */
  function AksPlan(current: int, target: int, step: int): Result<seq<int>, PlanError> {
    if step == 0 then Err(ZeroStep)
    else if step < 0 || current == target then Ok([target])
    else Ok(Plan(current, target, step))
  }

  /** The planner inside the AKS client's `_progressive_scale`. */
  method AksSteps(current: int, target: int, step: int) returns (r: Result<seq<int>, PlanError>)
    ensures r == AksPlan(current, target, step)
  {
    if step == 0 {
      return Err(ZeroStep);
    }
    var steps := StepRange(current, target, step);
    StepRangeIsPlan(current, target, step);
    StepRangeStaysBefore(current, target, step);
    if steps != [] && steps[|steps| - 1] != target {
      if target !in steps {
        steps := steps + [target];
      }
    }
    if steps == [] {
      steps := [target];
    }
    r := Ok(steps);
  }

  /** What the EKS client plans; it has no size to compare with the target when its range is empty. */
  function EksPlan(current: int, target: int, step: int): Result<seq<int>, PlanError> {
    if step == 0 then Err(ZeroStep)
    else if step < 0 || Distance(current, target) < step || current == target then Err(NoSteps)
    else Ok(Plan(current, target, step))
  }

  /** The planner inside the EKS client's `_progressive_scale`. */
  method EksSteps(current: int, target: int, step: int) returns (r: Result<seq<int>, PlanError>)
    ensures r == EksPlan(current, target, step)
  {
    if step == 0 {
      return Err(ZeroStep);
    }
    var counts := StepRange(current, target, step);
    StepRangeIsPlan(current, target, step);
    StepRangeStaysBefore(current, target, step);
    var steps: seq<int> := [];
    for i := 0 to |counts|
      invariant steps == counts[..i]
    {
      var size := if target > current then Min(counts[i], target) else Max(counts[i], target);
      steps := steps + [size];
    }
    assert counts[..|counts|] == counts;
    if steps == [] {
      return Err(NoSteps);
    }
    if steps[|steps| - 1] != target {
      steps := steps + [target];
    }
    r := Ok(steps);
  }

  // ---- The sizes each client requests ----

  /** `scale_node_pool` of the AKS client asks for nothing when the size is already right. */
  function AksPath(current: int, target: int, progressive: bool, step: int): Result<seq<int>, PlanError> {
    if current == target then Ok([])
    else if progressive then AksPlan(current, target, step)
    else Ok([target])
  }

  /** `scale_node_group` of the EKS client scales directly when one step is enough. */
  function EksPath(current: int, target: int, progressive: bool, step: int): Result<seq<int>, PlanError> {
    if progressive && Distance(current, target) > step then EksPlan(current, target, step)
    else Ok([target])
  }

  /** What the EKS client requests, case by case: it goes there directly, also when it is there already;
      it raises on a step that is not positive; or it takes the arithmetic path. */
  lemma EksPathMeans(current: int, target: int, progressive: bool, step: int)
    ensures var path := EksPath(current, target, progressive, step);
      && (!progressive || (current <= target + step && target <= current + step) ==> path == Ok([target]))
      && (progressive && (current > target + step || target > current + step) ==>
        && (path.Err? <==> step <= 0)
        && (path.Ok? ==> IsArithmetic(path.value, current, target, step)))
  {
    if step > 0 && current != target {
      PlanMeans(current, target, step);
    }
  }

  /** What the AKS client requests, case by case: nothing when it is there already; the target alone when
      it does not scale progressively or the step is negative; nothing but an error for step zero; or
      the arithmetic path. */
  lemma AksPathMeans(current: int, target: int, progressive: bool, step: int)
    ensures var path := AksPath(current, target, progressive, step);
      && (current == target ==> path == Ok([]))
      && (current != target && (!progressive || step < 0) ==> path == Ok([target]))
      && (current != target && progressive && step == 0 ==> path.Err?)
      && (current != target && progressive && step > 0 ==> path.Ok? && IsArithmetic(path.value, current, target, step))
  {
    if step > 0 && current != target {
      PlanMeans(current, target, step);
    }
  }

  /** So many steps from `current`, the last one cut short at `target`. */
  ghost predicate IsArithmetic(path: seq<int>, current: int, target: int, step: int) {
    && path != [] && path[|path| - 1] == target
    && (forall i :: 0 <= i < |path| ==>
      path[i] ==
        if current < target then Min(current + (i + 1) * step, target) else Max(current - (i + 1) * step, target))
    && (forall i :: 0 <= i < |path| - 1 ==> path[i] != target)
  }

  lemma PlanMeans(current: int, target: int, step: int)
    requires step > 0 && current != target
    ensures IsArithmetic(Plan(current, target, step), current, target, step)
  {
    var plan := Plan(current, target, step);
    PlanIsProgressive(current, target, step);
    forall i | 0 <= i < |plan|
      ensures plan[i] ==
        if current < target then Min(current + (i + 1) * step, target) else Max(current - (i + 1) * step, target)
    {
      PlanIsArithmetic(current, target, step, i);
    }
    forall i | 0 <= i < |plan| - 1 ensures plan[i] != target {
      assert Between(plan[i], plan[|plan| - 1], target);
    }
  }

  /** The two clouds request the same sizes exactly when there is something to scale and the step
      is one that both accept. */
  lemma CloudsPlanAlike(current: int, target: int, progressive: bool, step: int)
    ensures AksPath(current, target, progressive, step).Ok?
      && AksPath(current, target, progressive, step) == EksPath(current, target, progressive, step)
      <==> current != target && (progressive ==> step >= 1)
  {
    if current != target && progressive && step >= 1 && Distance(current, target) <= step {
      assert Plan(current, target, step) == [target];
    }
  }

  /** When the EKS client enters its own loop, its list of steps has a last element exactly for a
      positive step; the loop then takes at least two steps, each strictly closer, and ends at the
      target, as the AKS client would. */
  lemma EksLoopReachesTarget(current: int, target: int, step: int)
    requires Distance(current, target) > step
    ensures var plan := EksPlan(current, target, step);
      && (plan.Ok? <==> step >= 1)
      && (plan.Ok? ==>
        && |plan.value| >= 2 && plan.value[|plan.value| - 1] == target
        && StrictlyApproaches(plan.value, current, target)
        && plan == AksPlan(current, target, step))
  {
    if step >= 1 {
      PlanIsProgressive(current, target, step);
      CeilDivStep(Distance(current, target), step);
      var q := CeilDiv(Distance(current, target) - step, step);
      if q <= 0 {
        Scale(step, q, 0);
      }
    }
  }
}
