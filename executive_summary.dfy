/** The executive summary PDF (`generarReporteEjecutivo`): one row per project
    under `Proyecto/Avance/Gastado/Estado`, saved as
    `Reporte_WM_<period>_<date>.pdf`. The logo loads or fails asynchronously;
    the two outcomes run two copies of the same drawing code, modelled here as
    one builder taking the outcome as a parameter. */
module ExecutiveSummary {
  import opened JsValues
  import opened Projects

  /** Whether the logo image loaded (`onload`) or not (`onerror`). */
  datatype HeaderVariant = WithLogo | WithoutLogo

  const SummaryHead: seq<string> := ["Proyecto", "Avance", "Gastado", "Estado"]

  /** `p.nombre || 'Sin nombre'`. */
  function NameCell(f: Field<string>): string {
    TextOr(f, "Sin nombre")
  }

  /** `${p.porcentaje_avance_fisico || 0}%`. */
  function ProgressCell(f: Field<int>): string {
    Decimal(NumOr(f, 0)) + "%"
  }

  /** `$${p.gasto_real_acumulado?.toLocaleString() || 0}`: the `|| 0` applies
      to the formatted text, so a present 0 is shown as the locale writes 0. */
  function SpentCell(f: Field<int>, fmt: NumberFormat): string {
    "$" + (if f.Present? && fmt.localeString(f.value) != "" then fmt.localeString(f.value) else "0")
  }

  /** `p.estado || 'Activo'`. */
  function StatusCell(f: Field<string>): string {
    TextOr(f, "Activo")
  }

  function SummaryRow(p: Project, fmt: NumberFormat): seq<string> {
    [NameCell(p.name), ProgressCell(p.progress), SpentCell(p.spendToDate, fmt), StatusCell(p.status)]
  }

  /** `proyectos.map(p => row)`: one row per project, in input order. */
  function SummaryRows(ps: seq<Project>, fmt: NumberFormat): (rows: seq<seq<string>>)
    ensures |rows| == |ps|
    ensures forall i :: 0 <= i < |ps| ==> rows[i] == SummaryRow(ps[i], fmt)
    decreases |ps|
  {
    if ps == [] then [] else [SummaryRow(ps[0], fmt)] + SummaryRows(ps[1..], fmt)
  }

  /** Mapping a concatenation gives the concatenation of the mapped parts. */
  lemma SummaryRowsAppend(a: seq<Project>, b: seq<Project>, fmt: NumberFormat)
    ensures SummaryRows(a + b, fmt) == SummaryRows(a, fmt) + SummaryRows(b, fmt)
  {
  }

  /** Cell defaults: a missing or empty name becomes `Sin nombre`, missing or
      zero progress `0%`, a missing spend `$0`, a missing or empty status
      `Activo`; present values pass through. */
  lemma SummaryRowDefaults(p: Project, fmt: NumberFormat)
    ensures var row := SummaryRow(p, fmt);
      && |row| == |SummaryHead|
      && row[0] == (if TruthyText(p.name) then p.name.value else "Sin nombre")
      && (row[1] == "0%" <==> !TruthyNum(p.progress))
      && row[1][..|row[1]| - 1] == Decimal(NumOr(p.progress, 0))
      && (!p.spendToDate.Present? ==> row[2] == "$0")
      && (p.spendToDate.Present? && fmt.localeString(p.spendToDate.value) != "" ==>
            row[2] == "$" + fmt.localeString(p.spendToDate.value))
      && row[3] == (if TruthyText(p.status) then p.status.value else "Activo")
  {
  }

  /** `periodo = 'semanal'`: the default applies only when the argument is
      left out; any string given, and null, are interpolated as they are. */
  function PeriodText(periodo: Field<string>): string {
    if periodo.Undefined? then "semanal" else TemplateText(periodo)
  }

  /** The document drawn once the logo has loaded or failed to load. */
  function Report(ps: seq<Project>, periodo: Field<string>, fecha: string,
                  variant: HeaderVariant, fmt: NumberFormat): Document
  {
    Document(
      variant == WithLogo,
      if variant == WithLogo then 32 else 15,
      [Company],
      Table(SummaryHead, SummaryRows(ps, fmt)),
      [],
      ReportFileName(PeriodText(periodo), fecha))
  }

  /** The table has one four-cell row per project under the four-column
      header, in input order. */
  lemma ReportTable(ps: seq<Project>, periodo: Field<string>, fecha: string,
                    variant: HeaderVariant, fmt: NumberFormat)
    ensures var t := Report(ps, periodo, fecha, variant, fmt).table;
      && t.head == SummaryHead
      && |t.body| == |ps|
      && Rectangular(t)
      && forall i :: 0 <= i < |ps| ==> t.body[i] == SummaryRow(ps[i], fmt)
  {
  }

  /** The two logo outcomes give the same table, heading and file name: they
      differ only in the logo and the title's x position, 32 against 15. */
  lemma VariantsAgree(ps: seq<Project>, periodo: Field<string>, fecha: string, fmt: NumberFormat)
    ensures var loaded := Report(ps, periodo, fecha, WithLogo, fmt);
      var failed := Report(ps, periodo, fecha, WithoutLogo, fmt);
      && loaded.logo && !failed.logo
      && loaded.titleX == 32 && failed.titleX == 15
      && loaded.(logo := false, titleX := 15) == failed
  {
  }

  /** Leaving the period out is the same as asking for `semanal`. */
  lemma DefaultPeriodIsWeekly(ps: seq<Project>, fecha: string, variant: HeaderVariant, fmt: NumberFormat)
    ensures Report(ps, Undefined, fecha, variant, fmt) == Report(ps, Present("semanal"), fecha, variant, fmt)
  {
  }

  /** The two buttons of the administrator view ask for `semanal` and
      `mensual`, and their file names carry that word. */
  lemma ButtonFileNames(ps: seq<Project>, fecha: string, variant: HeaderVariant, fmt: NumberFormat)
    ensures Report(ps, Present("semanal"), fecha, variant, fmt).fileName == ReportFileName("semanal", fecha)
    ensures Report(ps, Present("mensual"), fecha, variant, fmt).fileName == ReportFileName("mensual", fecha)
    ensures Report(ps, Present("semanal"), fecha, variant, fmt).fileName !=
            Report(ps, Present("mensual"), fecha, variant, fmt).fileName
  {
    ReportFileNameParts("semanal", fecha);
    ReportFileNameParts("mensual", fecha);
    assert ReportFileName("semanal", fecha)[11] == 's';
    assert ReportFileName("mensual", fecha)[11] == 'm';
  }

  /** No projects: an empty table body, still under the header. */
  lemma EmptyMonthlyReport(fecha: string, variant: HeaderVariant, fmt: NumberFormat)
    ensures var d := Report([], Present("mensual"), fecha, variant, fmt);
      d.table == Table(SummaryHead, []) && d.fileName == ReportFileName("mensual", fecha)
  {
  }
}
