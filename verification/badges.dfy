/**
 * The badge colour switches: each component maps a status, priority or role string to one of
 * the UI kit's badge variants, with a default branch for any other value. The status and
 * priority switches are written out identically in the admin list, the issue page, the
 * issue card and the map popup; this module is that one switch.
 */
module Badges {

  /** The `variant` prop of the UI kit's badge. */
  datatype Variant = Default | Destructive | Secondary | Outline

  const LifecycleStatuses: set<string> := {"open", "in_progress", "resolved"}

  /** `getStatusColor`. */
  function StatusVariant(status: string): (v: Variant)
    ensures v == Destructive <==> status == "open"
    ensures v == Default <==> status == "in_progress"
    ensures v == Secondary <==> status == "resolved"
    ensures v == Outline <==> status !in LifecycleStatuses
  {
    match status
    case "open" => Destructive
    case "in_progress" => Default
    case "resolved" => Secondary
    case _ => Outline
  }

  /** `getPriorityColor`: "urgent" and "high" share the alarming colour. */
  function PriorityVariant(priority: string): (v: Variant)
    ensures v == Destructive <==> priority == "urgent" || priority == "high"
    ensures v == Default <==> priority == "medium"
    ensures v == Secondary <==> priority == "low"
    ensures v == Outline <==> priority !in {"urgent", "high", "medium", "low"}
  {
    match priority
    case "urgent" => Destructive
    case "high" => Destructive
    case "medium" => Default
    case "low" => Secondary
    case _ => Outline
  }

  /** `getRoleColor` of the user list. */
  function RoleVariant(role: string): (v: Variant)
    ensures v == Destructive <==> role == "admin"
    ensures v == Default <==> role == "citizen"
    ensures v == Outline <==> role != "admin" && role != "citizen"
    ensures v != Secondary
  {
    match role
    case "admin" => Destructive
    case "citizen" => Default
    case _ => Outline
  }

  /** The status badge tells the three lifecycle statuses apart: distinct statuses, distinct colours. */
  lemma StatusVariantInjective(s: string, t: string)
    requires s in LifecycleStatuses && t in LifecycleStatuses && s != t
    ensures StatusVariant(s) != StatusVariant(t)
  {
  }
}
