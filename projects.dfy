/** The project record read from the `proyectos` table, restricted to the
    fields the KPI and report code reads, and the report document that the
    PDF library is asked to draw. */
module Projects {
  import opened JsValues

  /** One row of `proyectos`. Field names in the table: `nombre`,
      `presupuesto_total`, `gasto_real_acumulado`, `porcentaje_avance_fisico`,
      `estado`. */
  datatype Project = Project(
    name: Field<string>,
    budgetTotal: Field<int>,
    spendToDate: Field<int>,
    progress: Field<int>,
    status: Field<string>)

  /** A table as handed to the table plug-in: a header row and body rows. */
  datatype Table = Table(head: seq<string>, body: seq<seq<string>>)

  /** Every body row has one cell per header column. */
  predicate Rectangular(t: Table) {
    forall i :: 0 <= i < |t.body| ==> |t.body[i]| == |t.head|
  }

  /** What a report puts on the page, in drawing order, and the name it is
      saved under. Colours, fonts and coordinates are not modelled, except the
      x position of the title, which is what the two executive-summary header
      layouts differ in besides the logo. */
  datatype Document = Document(
    logo: bool,
    titleX: int,
    heading: seq<string>,
    table: Table,
    closing: seq<string>,
    fileName: string)

  /** The company name every report is headed with. */
  const Company: string := "WM CONSTRUCTORA"

  /** Report file names: `Reporte_WM_<tag>_<date>.pdf`. */
  function ReportFileName(tag: string, fecha: string): string {
    "Reporte_WM_" + tag + "_" + fecha + ".pdf"
  }

  /** A file name reads back as its prefix, its tag, an underscore, its
      date and the `.pdf` extension. */
  lemma ReportFileNameParts(tag: string, fecha: string)
    ensures var s := ReportFileName(tag, fecha);
      && |s| == |tag| + |fecha| + 16
      && s[..11] == "Reporte_WM_" && s[|s| - 4..] == ".pdf"
      && s[11..11 + |tag|] == tag
      && s[11 + |tag|] == '_'
      && s[12 + |tag|..|s| - 4] == fecha
  {
  }

  /** The tag and the date can be read back from a file name whose tag
      has a known length, so distinct reports of the same tag length never
      share a name. */
  lemma ReportFileNameInjective(t1: string, f1: string, t2: string, f2: string)
    requires |t1| == |t2|
    ensures ReportFileName(t1, f1) == ReportFileName(t2, f2) <==> t1 == t2 && f1 == f2
  {
    ReportFileNameParts(t1, f1);
    ReportFileNameParts(t2, f2);
  }

  /** Two reports saved on the same date get the same file name exactly when
      their tags are equal. */
  lemma SameDateFileNames(t1: string, t2: string, fecha: string)
    ensures ReportFileName(t1, fecha) == ReportFileName(t2, fecha) <==> t1 == t2
  {
    ReportFileNameParts(t1, fecha);
    ReportFileNameParts(t2, fecha);
    if |t1| == |t2| {
      ReportFileNameInjective(t1, fecha, t2, fecha);
    }
  }
}
