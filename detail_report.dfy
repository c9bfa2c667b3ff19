/** The per-project PDF (`generarReportePDF`): a heading, one "Financiero"
    row with budget, spend and efficiency, a closing line and a footer, saved
    as `Reporte_WM_<name>_<date>.pdf`. */
module DetailReport {
  import opened JsValues
  import opened Projects

  /** The field reads 0 in arithmetic: null, or the number 0. */
  predicate ZeroAmount(f: Field<int>) {
    f.Null? || f == Present(0)
  }

  /** `(spend / budget) * 100 || 0`, on the raw fields: an absent field makes
      the quotient NaN, a null one reads as 0. Nothing guards a zero budget. */
  function Efficiency(p: Project): (e: JsNumber)
    ensures !e.NaN?
    ensures p.spendToDate.Undefined? || p.budgetTotal.Undefined? ==> e == Finite(0.0)
    ensures ZeroAmount(p.spendToDate) && ZeroAmount(p.budgetTotal) ==> e == Finite(0.0)
    ensures p.budgetTotal.Present? && p.budgetTotal.value != 0 && !p.spendToDate.Undefined? ==>
      e == Finite(ToNumber(p.spendToDate).x / p.budgetTotal.value as real * 100.0)
    ensures ZeroAmount(p.budgetTotal) && p.spendToDate.Present? && p.spendToDate.value > 0 ==>
      e == Infinity(false)
    ensures ZeroAmount(p.budgetTotal) && p.spendToDate.Present? && p.spendToDate.value < 0 ==>
      e == Infinity(true)
  {
    NumberOrZero(Scale(Divide(ToNumber(p.spendToDate), ToNumber(p.budgetTotal)), 100.0))
  }

  /** With a positive budget and a spend on record, the efficiency is a
      finite percentage in [0, 100] exactly when the spend is not negative
      and does not exceed the budget. */
  lemma EfficiencyWithinBudget(p: Project)
    requires p.budgetTotal.Present? && p.budgetTotal.value > 0
    requires p.spendToDate.Present?
    ensures Efficiency(p).Finite?
    ensures 0.0 <= Efficiency(p).x <= 100.0 <==> 0 <= p.spendToDate.value <= p.budgetTotal.value
  {
    var s, b := p.spendToDate.value as real, p.budgetTotal.value as real;
    var q := s / b * 100.0;
    assert Efficiency(p).x == q;
    assert s / b * b == s;
    assert q * b == s * 100.0;
    if 0.0 <= q { assert 0.0 <= q * b; }
    if q <= 100.0 { assert q * b <= 100.0 * b; }
    if 100.0 < q { assert 100.0 * b < q * b; }
    if q < 0.0 { assert q * b < 0.0; }
  }

  /** The header row of the financial table. */
  const DetailHead: seq<string> := ["Concepto", "Monto Presupuestado", "Gasto Real", "Eficiencia"]

  /** `$${amount || 0}`. */
  function AmountCell(f: Field<int>): string {
    "$" + Decimal(NumOr(f, 0))
  }

  /** An amount cell shows `$0` exactly when the field is missing, null or 0. */
  lemma AmountCellDefault(f: Field<int>)
    ensures AmountCell(f) == "$0" <==> !TruthyNum(f)
  {
    assert Decimal(0) == "0";
    DecimalInjective(NumOr(f, 0), 0);
    assert AmountCell(f)[1..] == Decimal(NumOr(f, 0));
  }

  /** The amount cell determines the amount: two fields render alike exactly
      when they read as the same number. */
  lemma AmountCellDeterminesAmount(f: Field<int>, g: Field<int>)
    ensures AmountCell(f) == AmountCell(g) <==> NumOr(f, 0) == NumOr(g, 0)
  {
    DecimalInjective(NumOr(f, 0), NumOr(g, 0));
    if AmountCell(f) == AmountCell(g) {
      assert AmountCell(f)[1..] == AmountCell(g)[1..];
    }
  }

  /** `${efficiency.toFixed(1)}%`. */
  function EfficiencyCell(p: Project, fmt: NumberFormat): string {
    ToFixed1(Efficiency(p), fmt) + "%"
  }

  /** A zero or null budget with a nonzero spend is printed as `Infinity%`
      (positive spend) or `-Infinity%` (negative spend): the `|| 0` fallback
      catches only NaN. */
  lemma EfficiencyCellZeroBudget(p: Project, fmt: NumberFormat)
    requires ZeroAmount(p.budgetTotal)
    requires p.spendToDate.Present? && p.spendToDate.value != 0
    ensures p.spendToDate.value > 0 ==> EfficiencyCell(p, fmt) == "Infinity%"
    ensures p.spendToDate.value < 0 ==> EfficiencyCell(p, fmt) == "-Infinity%"
  {
  }

  /** Otherwise the cell is a one-decimal rendering of a finite percentage. */
  lemma EfficiencyCellFinite(p: Project, fmt: NumberFormat)
    requires !(ZeroAmount(p.budgetTotal) && p.spendToDate.Present? && p.spendToDate.value != 0)
    ensures Efficiency(p).Finite?
    ensures EfficiencyCell(p, fmt) == fmt.fixed1(Efficiency(p).x) + "%"
  {
  }

  /** The single body row of the financial table. */
  function DetailRow(p: Project, fmt: NumberFormat): seq<string> {
    ["Financiero", AmountCell(p.budgetTotal), AmountCell(p.spendToDate), EfficiencyCell(p, fmt)]
  }

  /** The document drawn for one project on date `fecha`. The project name is
      interpolated as it is, with no default. */
  function Report(p: Project, fecha: string, fmt: NumberFormat): Document {
    Document(
      false,
      15,
      [Company, "REPORTE EJECUTIVO DE PROYECTO", "FECHA: " + fecha, "Proyecto: " + TemplateText(p.name)],
      Table(DetailHead, [DetailRow(p, fmt)]),
      ["Resumen de Actividades y Stock",
       "Este documento es generado automáticamente por el Cerebro WM v1.0"],
      ReportFileName(TemplateText(p.name), fecha))
  }

  /** The report holds one four-cell row under the four-column header, its
      amounts and efficiency taken from the project, and a file name that
      carries the project's name and the date. */
  lemma ReportShape(p: Project, fecha: string, fmt: NumberFormat)
    ensures var d := Report(p, fecha, fmt);
      && d.table.head == DetailHead
      && |d.table.body| == 1
      && Rectangular(d.table)
      && (d.table.body[0][1] == "$0" <==> !TruthyNum(p.budgetTotal))
      && (d.table.body[0][2] == "$0" <==> !TruthyNum(p.spendToDate))
      && d.table.body[0][3][|d.table.body[0][3]| - 1] == '%'
      && d.fileName[..11] == "Reporte_WM_"
      && d.fileName[11..11 + |TemplateText(p.name)|] == TemplateText(p.name)
      && d.fileName[12 + |TemplateText(p.name)|..|d.fileName| - 4] == fecha
  {
    AmountCellDefault(p.budgetTotal);
    AmountCellDefault(p.spendToDate);
    ReportFileNameParts(TemplateText(p.name), fecha);
  }

  /** A project without a name is reported as `undefined` (or `null`), in the
      heading and in the file name alike. */
  lemma ReportOfUnnamedProject(p: Project, fecha: string, fmt: NumberFormat)
    requires !p.name.Present?
    ensures var shown := if p.name.Undefined? then "undefined" else "null";
      && Report(p, fecha, fmt).heading[3] == "Proyecto: " + shown
      && Report(p, fecha, fmt).fileName == ReportFileName(shown, fecha)
  {
  }

  /** Budget 1000 and spend 250: 25 percent. */
  lemma QuarterSpent(name: Field<string>, progress: Field<int>, status: Field<string>)
    ensures Efficiency(Project(name, Present(1000), Present(250), progress, status)) == Finite(25.0)
  {
  }

  /** Budget 0 and spend 500: Infinity, not 0. */
  lemma SpendWithoutBudget(name: Field<string>, progress: Field<int>, status: Field<string>)
    ensures Efficiency(Project(name, Present(0), Present(500), progress, status)) == Infinity(false)
  {
  }
}
