/**
 * The consultation route chosen on the search form and carried through the
 * query string to the new-case page.
 */
module ConsultationRoute {
  import opened Text

  /** `UiConsultationRoute` */
  datatype UiConsultationRoute = AiSelfService | AttorneyConsultation

  function RouteName(route: UiConsultationRoute): (r: string) {
    match route
    case AiSelfService => "ai_self_service"
    case AttorneyConsultation => "attorney_consultation"
  }

  /**
   * `normalizeUiConsultationRoute`: a query value (absent as None, which
   * covers both null and undefined) becomes a route when it spells one.
   */
  function NormalizeUiConsultationRoute(value: Option<string>): (r: Option<UiConsultationRoute>)
    ensures r.Some? <==> value == Some("attorney_consultation") || value == Some("ai_self_service")
    ensures r.Some? ==> value == Some(RouteName(r.value))
  {
    if value == Some("attorney_consultation") then Some(AttorneyConsultation)
    else if value == Some("ai_self_service") then Some(AiSelfService)
    else None
  }

  /** Normalising the name of a route gives the route back, so normalisation is idempotent. */
  lemma NormalizeRouteName(route: UiConsultationRoute)
    ensures NormalizeUiConsultationRoute(Some(RouteName(route))) == Some(route)
  {
  }
}
