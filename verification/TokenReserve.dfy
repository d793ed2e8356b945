// Budget raising for reviewed plans, and the halving test behind its warnings.

module TokenReserve {
  import opened Wrappers

  const U32_MAX := 0xFFFF_FFFF
  const U64_MAX := 0xFFFF_FFFF_FFFF_FFFF
  const MAX_CALLS := 8
  const MAX_CHECK_SLOTS := 32
  const TOKEN_CAP := 16_384
  const MINIMUM_RESPONSE := 128

  function SaturatingMul(a: nat, b: nat, limit: nat): nat {
    Min(a * b, limit)
  }

  // ----- the allocation test -----

  /** The tokens one call receives: at most `perCall`, keeping half back while calls remain. */
  function Output(tokens: nat, calls: nat, perCall: nat): nat {
    Min(perCall, tokens - if calls > 1 then tokens / 2 else 0)
  }

  /** The outputs of `editable` consecutive calls out of `calls`. */
  function Outputs(tokens: nat, calls: nat, editable: nat, perCall: nat): seq<nat>
    requires editable <= calls
  {
    if editable == 0 then []
    else
      var output := Output(tokens, calls, perCall);
      [output] + Outputs(tokens - output, calls - 1, editable - 1, perCall)
  }

  predicate Usable(outputs: seq<nat>) {
    forall i :: 0 <= i < |outputs| ==> outputs[i] >= MINIMUM_RESPONSE
  }

  /** Every scoped edit gets a usable response. */
  predicate Fits(tokens: nat, calls: nat, editable: nat, perCall: nat) {
    calls >= editable && Usable(Outputs(tokens, calls, editable, perCall))
  }

  lemma UsableCons(head: nat, rest: seq<nat>)
    ensures Usable([head] + rest) <==> head >= MINIMUM_RESPONSE && Usable(rest)
  {
    var all := [head] + rest;
    assert all[0] == head;
    assert forall i :: 0 <= i < |rest| ==> rest[i] == all[i + 1];
  }

  lemma FitsStep(tokens: nat, calls: nat, editable: nat, perCall: nat)
    requires 1 <= editable <= calls
    ensures var output := Output(tokens, calls, perCall);
      Fits(tokens, calls, editable, perCall)
      <==> output >= MINIMUM_RESPONSE && Fits(tokens - output, calls - 1, editable - 1, perCall)
  {
    var output := Output(tokens, calls, perCall);
    UsableCons(output, Outputs(tokens - output, calls - 1, editable - 1, perCall));
  }

  method MinimumEditAllocationsFit(tokens: nat, generations: nat, editable: nat, perCall: nat) returns (ok: bool)
    ensures ok == Fits(tokens, generations, editable, perCall)
  {
    if generations < editable {
      return false;
    }
    var left: nat := tokens;
    for used := 0 to editable
      invariant Fits(left, generations - used, editable - used, perCall) == Fits(tokens, generations, editable, perCall)
    {
      FitsStep(left, generations - used, editable - used, perCall);
      var remainingCalls := generations - used;
      var laterReserve := if remainingCalls > 1 then left / 2 else 0;
      var output := Min(perCall, left - laterReserve);
      if output < MINIMUM_RESPONSE {
        return false;
      }
      left := left - output;
    }
    return true;
  }

  /** The least reserve that fits, for a per-call limit of at least 128. */
  function Need(calls: nat, editable: nat, perCall: nat): nat
    requires 1 <= editable <= calls
  {
    if editable == 1 then (if calls > 1 then 2 * MINIMUM_RESPONSE - 1 else MINIMUM_RESPONSE)
    else
      var later := Need(calls - 1, editable - 1, perCall);
      Min(later + perCall, 2 * later)
  }

  lemma {:induction false} NeedAtLeastMinimum(calls: nat, editable: nat, perCall: nat)
    requires 1 <= editable <= calls && perCall >= MINIMUM_RESPONSE
    ensures Need(calls, editable, perCall) >= if calls > 1 then 2 * MINIMUM_RESPONSE - 1 else MINIMUM_RESPONSE
  {
    if editable > 1 {
      NeedAtLeastMinimum(calls - 1, editable - 1, perCall);
    }
  }

  /** One call's share is usable and leaves `later`, from `Min(later + perCall, 2 * later)` tokens on. */
  lemma ShareLeavesEnough(tokens: nat, perCall: nat, later: nat)
    requires perCall >= MINIMUM_RESPONSE && later >= MINIMUM_RESPONSE
    ensures var output := Output(tokens, 2, perCall);
      (output >= MINIMUM_RESPONSE && tokens - output >= later) <==> tokens >= Min(later + perCall, 2 * later)
  {
  }

  /** The test answers true exactly at or above the least reserve. */
  lemma {:induction false} FitsExactly(tokens: nat, calls: nat, editable: nat, perCall: nat)
    ensures Fits(tokens, calls, editable, perCall)
       <==> calls >= editable
            && (editable == 0 || (perCall >= MINIMUM_RESPONSE && tokens >= Need(calls, editable, perCall)))
  {
    if 1 <= editable <= calls {
      var output := Output(tokens, calls, perCall);
      FitsStep(tokens, calls, editable, perCall);
      FitsExactly(tokens - output, calls - 1, editable - 1, perCall);
      if editable > 1 && perCall >= MINIMUM_RESPONSE {
        NeedAtLeastMinimum(calls - 1, editable - 1, perCall);
        ShareLeavesEnough(tokens, perCall, Need(calls - 1, editable - 1, perCall));
      }
    }
  }

  lemma {:induction false} NeedGrows(calls: nat, editable: nat, perCall: nat, larger: nat)
    requires 1 <= editable <= calls && perCall <= larger
    ensures Need(calls, editable, perCall) <= Need(calls, editable, larger)
  {
    if editable > 1 {
      NeedGrows(calls - 1, editable - 1, perCall, larger);
    }
  }

  lemma {:induction false} SpareCallsNeedMore(calls: nat, more: nat, editable: nat, perCall: nat)
    requires 1 <= editable <= calls <= more
    ensures Need(calls, editable, perCall) <= Need(more, editable, perCall)
    ensures editable < calls ==> Need(calls, editable, perCall) == Need(more, editable, perCall)
  {
    if editable > 1 {
      SpareCallsNeedMore(calls - 1, more - 1, editable - 1, perCall);
    }
  }

  /** More tokens and a smaller usable per-call limit never hurt; any spare call costs the same. */
  lemma FitsIsOrdered(tokens: nat, calls: nat, editable: nat, perCall: nat, moreTokens: nat, smaller: nat,
                      moreCalls: nat)
    requires tokens <= moreTokens && MINIMUM_RESPONSE <= smaller <= perCall && calls <= moreCalls
    ensures Fits(tokens, calls, editable, perCall) ==> Fits(moreTokens, calls, editable, perCall)
    ensures Fits(tokens, calls, editable, perCall) ==> Fits(tokens, calls, editable, smaller)
    ensures editable < calls ==>
      (Fits(tokens, calls, editable, perCall) <==> Fits(tokens, moreCalls, editable, perCall))
    ensures Fits(tokens, moreCalls, editable, perCall) && editable <= calls ==> Fits(tokens, calls, editable, perCall)
  {
    FitsExactly(tokens, calls, editable, perCall);
    FitsExactly(moreTokens, calls, editable, perCall);
    FitsExactly(tokens, calls, editable, smaller);
    FitsExactly(tokens, moreCalls, editable, perCall);
    if 1 <= editable <= calls {
      NeedGrows(calls, editable, smaller, perCall);
      SpareCallsNeedMore(calls, moreCalls, editable, perCall);
    }
  }

  function Sum(s: seq<nat>): nat {
    if s == [] then 0 else s[0] + Sum(s[1..])
  }

  /** A true answer is witnessed by one allocation per path within every limit. */
  lemma {:induction false} OutputsAreAllocations(tokens: nat, calls: nat, editable: nat, perCall: nat)
    requires editable <= calls
    ensures var a := Outputs(tokens, calls, editable, perCall);
      |a| == editable && Sum(a) <= tokens && forall o :: o in a ==> o <= perCall
  {
    if editable > 0 {
      var output := Output(tokens, calls, perCall);
      OutputsAreAllocations(tokens - output, calls - 1, editable - 1, perCall);
      assert Outputs(tokens, calls, editable, perCall)[1..]
        == Outputs(tokens - output, calls - 1, editable - 1, perCall);
    }
  }

  /** A reserve of one full allowance per call gives every edit its full allowance. */
  lemma {:induction false} FullReserveIsNeverHalved(tokens: nat, calls: nat, editable: nat, perCall: nat)
    requires editable <= calls && tokens >= perCall * calls
    ensures forall o :: o in Outputs(tokens, calls, editable, perCall) ==> o == perCall
  {
    if editable > 0 {
      assert perCall * calls == perCall * (calls - 1) + perCall;
      assert Output(tokens, calls, perCall) == perCall by {
        if calls > 1 {
          assert perCall * (calls - 1) >= perCall;
        }
      }
      FullReserveIsNeverHalved(tokens - perCall, calls - 1, editable - 1, perCall);
    }
  }

  function Pow2(n: nat): nat {
    if n == 0 then 1 else 2 * Pow2(n - 1)
  }

  lemma OneMoreCall(perCall: nat, calls: nat)
    requires calls >= 1
    ensures perCall * calls == perCall * (calls - 1) + perCall
    ensures calls > 1 ==> perCall * calls >= 2 * perCall
  {
    if calls > 1 {
      assert perCall * (calls - 1) == perCall + perCall * (calls - 2);
      assert perCall * (calls - 2) >= 0;
    }
  }

  lemma {:induction false} NeedUpToFull(calls: nat, editable: nat, perCall: nat)
    requires 1 <= editable <= calls && perCall >= MINIMUM_RESPONSE
    ensures Need(calls, editable, perCall) <= perCall * calls
  {
    OneMoreCall(perCall, calls);
    if editable > 1 {
      NeedUpToFull(calls - 1, editable - 1, perCall);
    }
  }

  lemma {:induction false} NeedUpToDoubling(calls: nat, editable: nat, perCall: nat)
    requires 1 <= editable <= calls
    ensures Need(calls, editable, perCall) <= MINIMUM_RESPONSE * Pow2(calls - 1)
  {
    if editable > 1 {
      NeedUpToDoubling(calls - 1, editable - 1, perCall);
    } else if calls > 1 {
      Pow2Positive(calls - 2);
    }
  }

  lemma NeedBounds(calls: nat, editable: nat, perCall: nat)
    requires 1 <= editable <= calls && perCall >= MINIMUM_RESPONSE
    ensures Need(calls, editable, perCall) <= perCall * calls
    ensures Need(calls, editable, perCall) <= MINIMUM_RESPONSE * Pow2(calls - 1)
  {
    NeedUpToFull(calls, editable, perCall);
    NeedUpToDoubling(calls, editable, perCall);
  }

  lemma {:induction false} Pow2Positive(n: nat)
    ensures Pow2(n) >= 1
  {
    if n > 0 {
      Pow2Positive(n - 1);
    }
  }

  lemma {:induction false} Pow2Grows(m: nat, n: nat)
    requires m <= n
    ensures Pow2(m) <= Pow2(n)
  {
    if m < n {
      Pow2Grows(m, n - 1);
    }
  }

  // ----- raising a plan's budget -----

  datatype EditProtocol = SearchReplace | UnifiedDiff
  datatype ModelSelection = ModelSelection(contextTokens: nat, outputTokens: nat, protocol: Option<EditProtocol>)

  /** The parts of a request the budget depends on, as counts. */
  datatype Scope = Scope(newFile: bool, files: nat, editableExisting: nat, checks: nat, preparation: bool)
  datatype Budget = Budget(generations: nat, checkRuns: nat, generatedTokens: nat)

  datatype Warning =
    | Earlier(text: string)
    | ExplicitCallsTooFew(calls: nat, editable: nat)
    | ExplicitChecksTooFew(required: nat, reserved: nat)
    | ExplicitTokensTooFew(tokens: nat, editable: nat)
    | CallsRaised(editable: nat, raised: Budget)
    | ChecksOverCap(calls: nat, required: nat)
    | NoMinimumResponse
    | OverTokenCap

  function Editable(scope: Scope): nat {
    (if scope.newFile then 1 + scope.editableExisting else scope.files) % (U32_MAX + 1)
  }

  function ChecksPerCandidate(scope: Scope): nat {
    scope.checks % (U32_MAX + 1) + if scope.preparation then 1 else 0
  }

  function PerCall(selection: Option<ModelSelection>): nat {
    if selection.None? then 0 else Min(selection.value.outputTokens, selection.value.contextTokens / 4)
  }

  predicate Adjusts(scope: Scope, selection: Option<ModelSelection>) {
    selection.Some? && selection.value.protocol == Some(SearchReplace) && Editable(scope) > 1
  }

  function RaisedBudget(b: Budget, scope: Scope, perCall: nat): Budget {
    var calls := Min(Max(b.generations, Editable(scope)), MAX_CALLS);
    var checks := SaturatingMul(calls + 1, ChecksPerCandidate(scope), U32_MAX);
    var tokens := SaturatingMul(perCall, calls, U64_MAX);
    Budget(calls, Max(b.checkRuns, Min(checks, MAX_CHECK_SLOTS)), Max(b.generatedTokens, Min(tokens, TOKEN_CAP)))
  }

  function ExplicitWarnings(b: Budget, scope: Scope, perCall: nat): seq<Warning> {
    var editable := Editable(scope);
    var required := SaturatingMul(editable + 1, ChecksPerCandidate(scope), U32_MAX);
    (if b.generations < editable then [ExplicitCallsTooFew(b.generations, editable)] else []) +
    (if b.checkRuns < required then [ExplicitChecksTooFew(required, b.checkRuns)] else []) +
    (if b.generations >= editable && !Fits(b.generatedTokens, b.generations, editable, perCall)
     then [ExplicitTokensTooFew(b.generatedTokens, editable)] else [])
  }

  /** Stated by what each warning means, not by the order of the tests. */
  function RaisedWarnings(b: Budget, scope: Scope, perCall: nat): seq<Warning> {
    var r := RaisedBudget(b, scope, perCall);
    var required := SaturatingMul(r.generations + 1, ChecksPerCandidate(scope), U32_MAX);
    (if r.generations > b.generations then [CallsRaised(Editable(scope), r)] else []) +
    (if required > MAX_CHECK_SLOTS then [ChecksOverCap(r.generations, required)] else []) +
    (if Editable(scope) > MAX_CALLS || perCall < MINIMUM_RESPONSE then [NoMinimumResponse]
     else if perCall * r.generations > TOKEN_CAP then [OverTokenCap] else [])
  }

  class LocalPlan {
    const scope: Scope
    var generations: nat
    var checkRuns: nat
    var generatedTokens: nat
    var warnings: seq<Warning>

    constructor (scope: Scope, b: Budget, warnings: seq<Warning>)
      ensures this.scope == scope && Reserve() == b && this.warnings == warnings
    {
      this.scope, this.warnings := scope, warnings;
      generations, checkRuns, generatedTokens := b.generations, b.checkRuns, b.generatedTokens;
    }

    function Reserve(): Budget
      reads this
    {
      Budget(generations, checkRuns, generatedTokens)
    }

    method AdjustReviewedPlanBudget(selection: Option<ModelSelection>, explicitBudget: bool)
      requires selection.Some? ==> selection.value.outputTokens <= U32_MAX
      modifies this
      ensures Adjusts(scope, selection) <==>
        selection.Some? && selection.value.protocol == Some(SearchReplace) && Editable(scope) > 1
      ensures !Adjusts(scope, selection) ==> Reserve() == old(Reserve()) && warnings == old(warnings)
      ensures Adjusts(scope, selection) && explicitBudget ==>
        Reserve() == old(Reserve())
        && warnings == old(warnings) + ExplicitWarnings(Reserve(), scope, PerCall(selection))
      ensures Adjusts(scope, selection) && !explicitBudget ==>
        && Reserve() == RaisedBudget(old(Reserve()), scope, PerCall(selection))
        && warnings == old(warnings) + RaisedWarnings(old(Reserve()), scope, PerCall(selection))
    {
      if selection.None? || selection.value.protocol != Some(SearchReplace) {
        return;
      }
      var editable := Editable(scope);
      if editable <= 1 {
        return;
      }
      if explicitBudget {
        WarnExplicit(PerCall(selection));
      } else {
        RaiseBudget(PerCall(selection));
      }
    }

    /** The branch for a budget the user gave: it is only commented on. */
    method WarnExplicit(perCall: nat)
      modifies this`warnings
      ensures warnings == old(warnings) + ExplicitWarnings(Reserve(), scope, perCall)
    {
      var editable := Editable(scope);
      if generations < editable {
        warnings := warnings + [ExplicitCallsTooFew(generations, editable)];
      }
      var required := SaturatingMul(editable + 1, ChecksPerCandidate(scope), U32_MAX);
      if checkRuns < required {
        warnings := warnings + [ExplicitChecksTooFew(required, checkRuns)];
      }
      var fits := MinimumEditAllocationsFit(generatedTokens, generations, editable, perCall);
      if generations >= editable && !fits {
        warnings := warnings + [ExplicitTokensTooFew(generatedTokens, editable)];
      }
    }

    method RaiseBudget(perCall: nat)
      requires perCall <= U32_MAX && Editable(scope) > 1
      modifies this
      ensures Reserve() == RaisedBudget(old(Reserve()), scope, perCall)
      ensures warnings == old(warnings) + RaisedWarnings(old(Reserve()), scope, perCall)
    {
      var editable, checksPerCandidate := Editable(scope), ChecksPerCandidate(scope);
      var originalCalls := generations;
      generations := Min(Max(generations, editable), MAX_CALLS);
      var requiredChecks := SaturatingMul(generations + 1, checksPerCandidate, U32_MAX);
      checkRuns := Max(checkRuns, Min(requiredChecks, MAX_CHECK_SLOTS));
      var requiredTokens := SaturatingMul(perCall, generations, U64_MAX);
      generatedTokens := Max(generatedTokens, Min(requiredTokens, TOKEN_CAP));
      if generations > originalCalls {
        warnings := warnings + [CallsRaised(editable, Reserve())];
      }
      if requiredChecks > MAX_CHECK_SLOTS {
        warnings := warnings + [ChecksOverCap(generations, requiredChecks)];
      }
      RaisedBudgetFitsExactly(old(Reserve()), scope, perCall);
      var fits := MinimumEditAllocationsFit(generatedTokens, generations, editable, perCall);
      if !fits {
        warnings := warnings + [NoMinimumResponse];
      } else if requiredTokens > TOKEN_CAP {
        warnings := warnings + [OverTokenCap];
      }
    }
  }

  /** The paths an edit may touch and the checks of one candidate, counted modulo 2^32, and the largest
      response one call may ask for: the model's own limit, and a quarter of its context. */
  lemma CountsExactly(scope: Scope, selection: ModelSelection)
    ensures Editable(scope) < 0x1_0000_0000
    ensures (if scope.newFile then 1 + scope.editableExisting else scope.files) % 0x1_0000_0000 == Editable(scope)
    ensures scope.checks < 0x1_0000_0000 ==>
      ChecksPerCandidate(scope) == if scope.preparation then scope.checks + 1 else scope.checks
    ensures var n := PerCall(Some(selection));
      && n <= selection.outputTokens && 4 * n <= selection.contextTokens
      && (n + 1 > selection.outputTokens || 4 * (n + 1) > selection.contextTokens)
  {
  }

  /** `value` is `was`, raised as little as covers `needed`, but never past the cap. */
  predicate RaisedTo(value: nat, was: nat, needed: nat, cap: nat) {
    && value >= was && (value >= needed || value >= cap)
    && (value > was ==> value <= needed && value <= cap)
  }

  /** A budget is raised to one call for every path, a baseline and a check run for every call, and a full
      allowance for every call, as far as the caps of 8, 32 and 16,384 allow. Calls alone are also lowered
      to their cap. */
  lemma RaisedBudgetExactly(b: Budget, scope: Scope, perCall: nat)
    ensures var r := RaisedBudget(b, scope, perCall);
      && (if b.generations > 8 then r.generations == 8
          else RaisedTo(r.generations, b.generations, Editable(scope), 8))
      && RaisedTo(r.checkRuns, b.checkRuns, (r.generations + 1) * ChecksPerCandidate(scope), 32)
      && RaisedTo(r.generatedTokens, b.generatedTokens, perCall * r.generations, 16_384)
  {
  }

  /** The order in which the warnings come. */
  function Rank(w: Warning): nat {
    match w
    case Earlier(_) => 0
    case ExplicitCallsTooFew(_, _) => 1
    case ExplicitChecksTooFew(_, _) => 2
    case ExplicitTokensTooFew(_, _) => 3
    case CallsRaised(_, _) => 4
    case ChecksOverCap(_, _) => 5
    case NoMinimumResponse => 6
    case OverTokenCap => 7
  }

  ghost predicate InOrder(warnings: seq<Warning>) {
    forall i, j :: 0 <= i < j < |warnings| ==> Rank(warnings[i]) < Rank(warnings[j])
  }

  /** A budget the user gave is commented on exactly where it falls short: of a call for each path, of a
      baseline and a check run for each path, or of a usable response for each path. */
  lemma ExplicitWarningsExactly(b: Budget, scope: Scope, perCall: nat)
    requires Editable(scope) > 1
    ensures var w, paths := ExplicitWarnings(b, scope, perCall), Editable(scope);
      var needed := Min((paths + 1) * ChecksPerCandidate(scope), U32_MAX);
      && InOrder(w)
      && (forall x :: x in w <==>
            || (x == ExplicitCallsTooFew(b.generations, paths) && b.generations < paths)
            || (x == ExplicitChecksTooFew(needed, b.checkRuns) && b.checkRuns < needed)
            || (x == ExplicitTokensTooFew(b.generatedTokens, paths) && b.generations >= paths
                && (perCall < MINIMUM_RESPONSE || b.generatedTokens < Need(b.generations, paths, perCall))))
  {
    FitsExactly(b.generatedTokens, b.generations, Editable(scope), perCall);
  }

  /** A raised budget is commented on exactly when calls were added, when the checks or the tokens pass
      their cap, or when no budget could give every path a usable response. */
  lemma RaisedWarningsExactly(b: Budget, scope: Scope, perCall: nat)
    requires Editable(scope) > 1
    ensures var w, r, paths := RaisedWarnings(b, scope, perCall), RaisedBudget(b, scope, perCall), Editable(scope);
      var needed := Min((r.generations + 1) * ChecksPerCandidate(scope), U32_MAX);
      && InOrder(w)
      && (forall x :: x in w <==>
            || (x == CallsRaised(paths, r) && b.generations < paths && b.generations < 8)
            || (x == ChecksOverCap(r.generations, needed) && needed > 32)
            || (x == NoMinimumResponse && (paths > 8 || perCall < 128))
            || (x == OverTokenCap && paths <= 8 && perCall >= 128 && perCall * r.generations > 16_384))
  {
  }

  /** Whatever the budget was before, the raised one fits exactly up to eight paths and
      from 128 tokens per call: 16,384 is 128 doubled seven times. */
  lemma RaisedBudgetFitsExactly(b: Budget, scope: Scope, perCall: nat)
    requires Editable(scope) > 1 && perCall <= U32_MAX
    ensures var r := RaisedBudget(b, scope, perCall);
      Fits(r.generatedTokens, r.generations, Editable(scope), perCall)
      <==> Editable(scope) <= MAX_CALLS && perCall >= MINIMUM_RESPONSE
  {
    var r := RaisedBudget(b, scope, perCall);
    var editable := Editable(scope);
    FitsExactly(r.generatedTokens, r.generations, editable, perCall);
    if editable <= MAX_CALLS && perCall >= MINIMUM_RESPONSE {
      NeedBounds(r.generations, editable, perCall);
      Pow2Grows(r.generations - 1, MAX_CALLS - 1);
      assert Pow2(7) == 128;
    }
  }

  /** Below the cap every scoped edit gets its full allowance. */
  lemma BelowCapIsFull(b: Budget, scope: Scope, perCall: nat)
    requires 1 < Editable(scope) <= MAX_CALLS
    requires perCall * RaisedBudget(b, scope, perCall).generations <= TOKEN_CAP
    ensures var r := RaisedBudget(b, scope, perCall);
      forall o :: o in Outputs(r.generatedTokens, r.generations, Editable(scope), perCall) ==> o == perCall
  {
    var r := RaisedBudget(b, scope, perCall);
    FullReserveIsNeverHalved(r.generatedTokens, r.generations, Editable(scope), perCall);
  }

  /** The caps meet: eight paths need the whole cap exactly once a call may use half of it. */
  lemma CapsMeet(perCall: nat)
    requires perCall >= MINIMUM_RESPONSE
    ensures Need(MAX_CALLS, MAX_CALLS, perCall) <= TOKEN_CAP
    ensures Need(MAX_CALLS, MAX_CALLS, perCall) == TOKEN_CAP <==> perCall >= TOKEN_CAP / 2
  {
    NeedBounds(MAX_CALLS, MAX_CALLS, perCall);
    NeedBounds(MAX_CALLS - 1, MAX_CALLS - 1, perCall);
    assert Pow2(7) == 128 && Pow2(6) == 64;
    if perCall >= TOKEN_CAP / 2 {
      NeedDoubles(MAX_CALLS - 1, perCall);
    }
  }

  lemma {:induction false} NeedDoubles(calls: nat, perCall: nat)
    requires calls >= 1 && perCall >= MINIMUM_RESPONSE * Pow2(calls - 1)
    ensures Need(calls, calls, perCall) == MINIMUM_RESPONSE * Pow2(calls - 1)
  {
    if calls > 1 {
      NeedDoubles(calls - 1, perCall);
    }
  }
}
