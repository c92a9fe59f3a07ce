/** Feature flag evaluation: the percentage rollout never takes a flag back and enables the right share. */
module Rollout {
  import opened Wrappers

  datatype FlagType = BOOLEAN | PERCENTAGE | PLAN

  /** The fields of the JSON value that evaluation reads. */
  datatype FlagValue = FlagValue(enabled: bool, percentage: Option<real>, plans: seq<string>)

  datatype Flag = Flag(kind: FlagType, value: FlagValue, active: bool)

  datatype Override = Override(enabled: bool, value: FlagValue)

  datatype Reason = NOT_FOUND_OR_INACTIVE | OVERRIDE | DEFAULT

  /** `word` is the first four bytes of the hash of organization and flag key. */
  function DeterministicBucket(word: nat): nat {
    word % 100
  }

  predicate EvaluateByType(kind: FlagType, value: FlagValue, enabled: bool, planCode: Option<string>, word: nat) {
    enabled && match kind
      case BOOLEAN => value.enabled
      case PERCENTAGE =>
        var pct := value.percentage.GetOr(0.0);
        if pct <= 0.0 then false
        else if pct >= 100.0 then true
        else (DeterministicBucket(word) as real) < pct
      case PLAN =>
        value.plans == [] || (planCode.Some? && planCode.value != "" && planCode.value in value.plans)
  }

  function EvaluateFlag(flag: Option<Flag>, override: Option<Override>, planCode: Option<string>, word: nat): (bool, Reason) {
    if flag.None? || !flag.value.active then (false, NOT_FOUND_OR_INACTIVE)
    else match override
      case Some(o) => (EvaluateByType(flag.value.kind, o.value, o.enabled, planCode, word), OVERRIDE)
      case None => (EvaluateByType(flag.value.kind, flag.value.value, true, planCode, word), DEFAULT)
  }

  /** What the flag's value says for an organization, by the type of the flag: an on/off switch; a share
      of the hash buckets 0 to 99; or a list of plans, where no list means every plan. */
  predicate Enables(kind: FlagType, value: FlagValue, planCode: Option<string>, word: nat) {
    || (kind == BOOLEAN && value.enabled)
    || (kind == PERCENTAGE && value.percentage.Some? && ((word % 100) as real) < value.percentage.value)
    || (kind == PLAN && (value.plans == [] || (planCode.Some? && planCode.value != "" && planCode.value in value.plans)))
  }

  /** An inactive or missing flag is off; an override decides alone, and being switched off it turns the
      flag off whatever its value; without one the flag's own value decides. */
  lemma EvaluationSays(flag: Option<Flag>, override: Option<Override>, planCode: Option<string>, word: nat)
    ensures var (enabled, reason) := EvaluateFlag(flag, override, planCode, word);
      && (reason == NOT_FOUND_OR_INACTIVE <==> flag.None? || !flag.value.active)
      && (reason == OVERRIDE <==> flag.Some? && flag.value.active && override.Some?)
      && (enabled <==>
            (&& flag.Some? && flag.value.active
             && (override.None? ==> Enables(flag.value.kind, flag.value.value, planCode, word))
             && (override.Some? ==> override.value.enabled && Enables(flag.value.kind, override.value.value, planCode, word))))
  {
    assert 0 <= word % 100 < 100;
  }

  /** Raising the percentage never disables the flag for an organization, ends included. */
  lemma RaisingNeverDisables(flag: Flag, raised: Flag, planCode: Option<string>, word: nat)
    requires flag.kind == raised.kind == PERCENTAGE && flag.active && raised.active
    requires flag.value.percentage.GetOr(0.0) <= raised.value.percentage.GetOr(0.0)
    ensures EvaluateFlag(Some(flag), None, planCode, word).0 ==> EvaluateFlag(Some(raised), None, planCode, word).0
  {
    assert DeterministicBucket(word) < 100;
  }

  /** How many of the hash words 0..n-1 a percentage enables. */
  function EnabledAmong(value: FlagValue, n: nat): nat {
    if n == 0 then 0
    else EnabledAmong(value, n - 1) + (if EvaluateByType(PERCENTAGE, value, true, None, n - 1) then 1 else 0)
  }

  function Min(a: int, b: int): int {
    if a < b then a else b
  }

  /** At integer percentage p strictly between the ends, whole hundreds of words contribute p each
      and the remainder what its buckets allow. */
  lemma {:induction false} ExactShare(value: FlagValue, p: nat, n: nat)
    requires 0 < p < 100 && value.percentage == Some(p as real)
    ensures EnabledAmong(value, n) == p * (n / 100) + Min(p, n % 100)
  {
    if n > 0 {
      ExactShare(value, p, n - 1);
      var q, r := (n - 1) / 100, (n - 1) % 100;
      assert (r as real) < (p as real) <==> r < p;
      if r == 99 {
        assert n / 100 == q + 1 && n % 100 == 0;
        assert p * (q + 1) == p * q + p;
      } else {
        assert n / 100 == q && n % 100 == r + 1;
      }
    }
  }
}
