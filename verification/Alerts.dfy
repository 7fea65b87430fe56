/** The search alert as the planner and the cycle see it. */
module Alerts {
  import opened Wrappers
  import opened Conditions
  import Texts

  const MIN_FREQUENCY_SECONDS := 60

  datatype SearchAlert = SearchAlert(
    id: nat, userId: nat, name: string, portalSlugs: set<string>, frequencySeconds: int, conditions: Node,
    createdAt: int, updatedAt: int, isActive: bool, lastRunAt: Option<int>)

  /** What the constructor demands; a violation is an InvalidAlertError. */
  predicate IsValid(alert: SearchAlert) {
    && Texts.Strip(alert.name) != []
    && alert.portalSlugs != {}
    && MIN_FREQUENCY_SECONDS <= alert.frequencySeconds
    && 1 <= Leaves(alert.conditions)
  }

  /** Never run, or last run at least its frequency ago; times in seconds. */
  predicate IsDue(alert: SearchAlert, now: int) {
    alert.isActive && (alert.lastRunAt.None? || now - alert.lastRunAt.value >= alert.frequencySeconds)
  }

  /**
  What the repository holds after `add`: everything from the alert, except that portal subscriptions
  are only ever added.
  */
  function Merged(stored: Option<SearchAlert>, alert: SearchAlert): SearchAlert {
    match stored
    case None => alert
    case Some(before) => alert.(portalSlugs := before.portalSlugs + alert.portalSlugs)
  }
}
