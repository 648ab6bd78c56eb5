/** `is_unlimited` (app.py:1631-1639): whether a user's entitlement row
    lifts the free-plan trade limit. */
module Entitlements {
  import opened Wrappers
  import opened Text

  /** A value of the entitlement row as the database client hands it
      over: SQL null, a float NaN, a string, or any other value, kept as
      the text `str()` gives for it. */
  datatype Field = Null | NaN | Str(s: string) | Other(rendering: string)

  /** An entitlement row; a key the row lacks is absent from the map. */
  type Row = map<string, Field>

  /** `entitlement.get(key)`: None for a missing key. */
  function Get(row: Row, key: string): Option<Field> {
    if key in row then Some(row[key]) else None
  }

  /** `safe_str`: "" for None and NaN, the text of anything else. */
  function SafeStr(v: Option<Field>): (s: string)
    ensures v.None? || v == Some(Null) || v == Some(NaN) ==> s == ""
    ensures v.Some? && v.value.Str? ==> s == v.value.s
    ensures v.Some? && v.value.Other? ==> s == v.value.rendering
  {
    match v
    case None => ""
    case Some(Null) => ""
    case Some(NaN) => ""
    case Some(Str(s)) => s
    case Some(Other(r)) => r
  }

  /** The plans without a trade limit, compared in lower case. */
  predicate UnlimitedPlan(plan: string) {
    plan == "pro" || plan == "grandfathered" || plan == "lifetime"
  }

  /** `is_unlimited`: unlimited when there is no entitlement row or it is
      empty (the app fails open), when the plan is pro, grandfathered or
      lifetime in any letter case, and otherwise exactly when the row has no
      trade limit (a missing key or null; a NaN limit is a limit). */
  function IsUnlimited(entitlement: Option<Row>): (r: bool)
    ensures entitlement.None? || entitlement == Some(map[]) ==> r
    ensures entitlement.Some? && entitlement.value != map[] ==>
      (r <==> UnlimitedPlan(Lower(SafeStr(Get(entitlement.value, "plan"))))
              || "trade_limit" !in entitlement.value
              || entitlement.value["trade_limit"] == Null)
  {
    if entitlement.None? || entitlement.value == map[] then true
    else
      var plan := Lower(SafeStr(Get(entitlement.value, "plan")));
      if UnlimitedPlan(plan) then true
      else Get(entitlement.value, "trade_limit").None? || Get(entitlement.value, "trade_limit") == Some(Null)
  }

  /** For a pro, grandfathered or lifetime plan the trade limit is never
      consulted: any value of it, or none, leaves the user unlimited. */
  lemma UnlimitedPlanIgnoresLimit(row: Row, limit: Field)
    requires UnlimitedPlan(Lower(SafeStr(Get(row, "plan"))))
    ensures IsUnlimited(Some(row))
    ensures IsUnlimited(Some(row["trade_limit" := limit]))
  {
    var row' := row["trade_limit" := limit];
    assert Get(row', "plan") == Get(row, "plan");
    assert "plan" in row;
  }

  /** The plan name is matched regardless of letter case: "PRO" and "Pro"
      are unlimited like "pro". */
  lemma PlanIgnoresCase(row: Row)
    ensures IsUnlimited(Some(row["plan" := Str("PRO")]))
    ensures IsUnlimited(Some(row["plan" := Str("Pro")]))
  {
    var a := row["plan" := Str("PRO")];
    var b := row["plan" := Str("Pro")];
    assert "plan" in a && "plan" in b;
    assert Lower("PRO") == "pro";
    assert Lower("Pro") == "pro";
  }

  /** A free-plan row with a trade limit is limited, and so is one whose
      limit is NaN: only a missing or null limit means unlimited. */
  lemma FreePlanWithLimitIsLimited(limit: Field)
    requires limit != Null
    ensures !IsUnlimited(Some(map["plan" := Str("free"), "trade_limit" := limit]))
  {
    var row := map["plan" := Str("free"), "trade_limit" := limit];
    assert "plan" in row;
    assert Lower("free") == "free";
  }
}
