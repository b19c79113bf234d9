/** The status badge helpers of the dashboard: a colour class and a label
    per payment status. */
module Utils {
  const DefaultColor := "text-gray-600 bg-gray-100"

  const StatusColors: map<string, string> := map[
    "al_dia" := "text-blue-600 bg-blue-100",
    "pendiente" := "text-orange-600 bg-orange-100",
    "atrasado" := "text-red-600 bg-red-100",
    "completo" := "text-green-600 bg-green-100",
    "proximo" := "text-gray-600 bg-gray-100"]

  const StatusLabels: map<string, string> := map[
    "al_dia" := "Al día",
    "pendiente" := "Pendiente",
    "atrasado" := "Atrasado",
    "completo" := "Completo",
    "proximo" := "Próximo"]

  /** `statusColors[status] || default`; every listed colour is non-empty. */
  function GetStatusColor(status: string): (r: string)
    ensures status in StatusColors ==> r == StatusColors[status]
    ensures status !in StatusColors ==> r == DefaultColor
    ensures r != ""
  {
    if status in StatusColors && StatusColors[status] != "" then StatusColors[status] else DefaultColor
  }

  /** `statusLabels[status] || status`. */
  function GetStatusLabel(status: string): (r: string)
    ensures status in StatusLabels ==> r == StatusLabels[status]
    ensures status !in StatusLabels ==> r == status
  {
    if status in StatusLabels && StatusLabels[status] != "" then StatusLabels[status] else status
  }

  /** `proximo` is drawn like an unknown status. */
  lemma ProximoHasDefaultColor()
    ensures GetStatusColor("proximo") == GetStatusColor("desconocido") == DefaultColor
  {
  }

  /** The colour tells apart the four other statuses from each other and
      from an unknown one. */
  lemma DefaultColorOnlyForProximoOrUnknown(status: string)
    ensures GetStatusColor(status) == DefaultColor <==> status == "proximo" || status !in StatusColors
  {
  }

  /** A status is shown as itself exactly when it is not one of the five. */
  lemma LabelIsStatusIffUnknown(status: string)
    ensures GetStatusLabel(status) == status <==> status !in StatusLabels
  {
    if status in StatusLabels {
      assert StatusLabels[status][0] != status[0];
    }
  }
}
