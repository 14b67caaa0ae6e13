/**
 * Subscription plan levels: a closed vocabulary of five strings, two of
 * which are marketing aliases, mapped onto three levels.
 */
module PlanLevels {
  import opened Wrappers

  const FREE: string := "free"
  const TEAM: string := "team"
  const BENCHER_TEAM: string := "Bencher Team"
  const ENTERPRISE: string := "enterprise"
  const BENCHER_ENTERPRISE: string := "Bencher Enterprise"

  /** The five accepted spellings. */
  const VALID_NAMES: set<string> := {FREE, TEAM, BENCHER_TEAM, ENTERPRISE, BENCHER_ENTERPRISE}

  datatype PlanLevel = Free | Team | Enterprise

  /** The derived `Default`: the first variant. */
  const DEFAULT: PlanLevel := Free

  /** The validation error; it carries the rejected input. */
  datatype ValidError = PlanLevelError(input: string)

  /** A deserializer error built with `de::Error::custom` from a validation error. */
  datatype DeError = Custom(cause: ValidError)

  /** `is_valid_plan_level`: a `matches!` over the five constants. */
  predicate IsValidPlanLevel(planLevel: string)
  {
    match planLevel
    case "free" => true
    case "team" => true
    case "Bencher Team" => true
    case "enterprise" => true
    case "Bencher Enterprise" => true
    case _ => false
  }

  /** The `match` inside `from_str`, reached only after validation succeeded.
      Its last arm is the `panic!`; the `assert false` there is the proof that
      validation lets through no string the earlier arms miss. */
  function MatchValid(planLevel: string): (p: PlanLevel)
    requires IsValidPlanLevel(planLevel)
    ensures AsRef(p) == planLevel || (planLevel == BENCHER_TEAM && p == Team) || (planLevel == BENCHER_ENTERPRISE && p == Enterprise)
  {
    if planLevel == FREE then Free
    else if planLevel == TEAM || planLevel == BENCHER_TEAM then Team
    else if planLevel == ENTERPRISE || planLevel == BENCHER_ENTERPRISE then Enterprise
    else assert false; Free
  }

  /** `FromStr::from_str`. */
  function FromStr(planLevel: string): (r: Result<PlanLevel, ValidError>)
    ensures r.Success? <==> planLevel in VALID_NAMES
    ensures r.Failure? ==> r.error == PlanLevelError(planLevel)
    ensures r.Success? ==> AsRef(r.value) == planLevel || planLevel == BENCHER_TEAM || planLevel == BENCHER_ENTERPRISE
  {
    if IsValidPlanLevel(planLevel) then Success(MatchValid(planLevel))
    else Failure(PlanLevelError(planLevel))
  }

  /** `AsRef<str>`: the canonical lower-case spelling, never an alias. */
  function AsRef(p: PlanLevel): (s: string)
    ensures IsValidPlanLevel(s) && s != BENCHER_TEAM && s != BENCHER_ENTERPRISE
  {
    match p
    case Free => FREE
    case Team => TEAM
    case Enterprise => ENTERPRISE
  }

  /** `From<PlanLevel> for String`. */
  function ToString(p: PlanLevel): (s: string)
    ensures s == AsRef(p)
    ensures IsValidPlanLevel(s)
  {
    AsRef(p)
  }

  /** The visitor's `visit_str`: parse, and wrap a validation error as a custom
      deserializer error. */
  function VisitStr(value: string): (r: Result<PlanLevel, DeError>)
    ensures r.Success? <==> FromStr(value).Success?
    ensures r.Success? ==> r.value == FromStr(value).value
    ensures r.Failure? ==> r.error == Custom(PlanLevelError(value))
  {
    match FromStr(value)
    case Success(p) => Success(p)
    case Failure(e) => Failure(Custom(e))
  }

  /** The validity check accepts exactly the five spellings. */
  lemma ValidExactly(s: string)
    ensures IsValidPlanLevel(s) <==> s in VALID_NAMES
  {
  }

  /** Padding with whitespace, the empty input and other words are rejected. */
  lemma {:induction false} PaddedRejected(s: string)
    ensures !IsValidPlanLevel(" " + s)
    ensures !IsValidPlanLevel(s + " ")
    ensures !IsValidPlanLevel("")
    ensures !IsValidPlanLevel("one") && !IsValidPlanLevel("two")
  {
    ValidExactly(" " + s);
    ValidExactly(s + " ");
    assert forall v :: v in VALID_NAMES ==> |v| > 0 && v[0] != ' ' && v[|v| - 1] != ' ';
    assert (" " + s)[0] == ' ' && (s + " ")[|s + " "| - 1] == ' ';
  }

  /** The two aliases parse to the level of their short spelling. */
  lemma Aliases()
    ensures FromStr(TEAM) == Success(Team) && FromStr(BENCHER_TEAM) == Success(Team)
    ensures FromStr(ENTERPRISE) == Success(Enterprise) && FromStr(BENCHER_ENTERPRISE) == Success(Enterprise)
    ensures FromStr(FREE) == Success(Free)
  {
  }

  /** Rendering and parsing back is the identity on levels. */
  lemma RoundTrip(p: PlanLevel)
    ensures FromStr(AsRef(p)) == Success(p)
    ensures FromStr(ToString(p)) == Success(p)
  {
  }

  /** The default is the free level, and it renders as "free". */
  lemma DefaultIsFree()
    ensures DEFAULT == Free && AsRef(DEFAULT) == FREE && FromStr(AsRef(DEFAULT)) == Success(DEFAULT)
  {
  }

  /** Deserializing a string accepts exactly the valid plan levels, with the level parsing gives. */
  lemma DeserializeAgrees(s: string)
    ensures VisitStr(s).Success? <==> IsValidPlanLevel(s)
    ensures IsValidPlanLevel(s) ==> VisitStr(s) == Success(MatchValid(s))
  {
  }
}
