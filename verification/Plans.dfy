/** Subscription tiers: internal/plan. */
module Plans {
  import opened Wrappers

  const FREE := "free"
  const PRO := "pro"
  const MAX := "max"
  const ENTERPRISE := "enterprise"

  predicate IsPlan(p: string) { p == FREE || p == PRO || p == MAX || p == ENTERPRISE }

  /** How many days of history a plan keeps; None keeps everything. */
  function RetentionDays(p: string): (days: Option<nat>) {
    if p == FREE then Some(30) else if p == PRO then Some(365) else None
  }
}
