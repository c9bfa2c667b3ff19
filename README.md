# WM Constructora dashboard: KPI and report logic

The dashboard (`src/app.jsx`) shows a construction company's projects. It
computes a cash-flow KPI and exports two PDF reports. This project models its
decision logic in Dafny and proves properties of it:

- **Cash-flow KPI** (`CashFlow`, file `cash_flow.dfy`). The "Flujo de Caja"
  card folds the project list left to right. Each project adds its budget
  minus its spend, and a missing or falsy amount reads as 0.
- **Per-project report** (`DetailReport`, file `detail_report.dfy`). This is
  `generarReportePDF`: a heading, one "Financiero" row (budget, spend and
  efficiency), and the file name `Reporte_WM_<name>_<date>.pdf`.
- **Executive summary** (`ExecutiveSummary`, file `executive_summary.dfy`).
  This is `generarReporteEjecutivo`: one row per project under
  `Proyecto/Avance/Gastado/Estado`, and the file name
  `Reporte_WM_<period>_<date>.pdf`. The source has two copies of this code,
  one for when the logo loads and one for when it fails. They are modelled as
  one builder that takes the outcome as a `HeaderVariant` parameter.
- **Live alerts** (`Alerts`, file `alerts.dfy`). The notifications panel's
  state updater puts each new alert at the front of the list.

Shared pieces:

- `JsValues` (file `js_values.dfy`) holds the JavaScript semantics the code
  relies on:
  - a record field may be `undefined`, `null` or a value (`Field`);
  - the truthiness used by `x || d`;
  - how `${…}` renders a missing text value or an integer (`Decimal`, with a
    parse round trip);
  - the double arithmetic of the efficiency quotient, taken over exact reals,
    with NaN and the infinities.
- `Projects` (file `projects.dfy`) holds the project record and the document
  handed to the PDF library: heading lines, a table, closing lines and a file
  name.

A `Document` lists the text a report draws, in order, with its table and file
name. It does not hold colours, fonts or coordinates. The one exception is the
title's x position, because that and the logo are all the two header layouts
differ in.

Behaviour of the code that the model keeps as it is:

- **Efficiency with a zero budget.** `(spend / budget) * 100 || 0` only
  catches NaN. A budget of 0 or `null` with a positive spend gives
  `Infinity`, printed `Infinity%`, and a negative spend gives `-Infinity%`
  (`DetailReport.EfficiencyCellZeroBudget`, `DetailReport.SpendWithoutBudget`).
- **Absent versus null.** The efficiency is 0 when a field is absent
  (`undefined`), because the quotient is then NaN. A `null` field reads as 0
  in arithmetic, so a `null` budget behaves like a zero budget.
- **No default name in the per-project report.** That report interpolates the
  name as it is, so a missing name shows as `undefined` or `null` in the
  heading and in the file name (`DetailReport.ReportOfUnnamedProject`).
- **Period labels.** The period is the Spanish word the buttons pass,
  `semanal` or `mensual`. When it is left out it defaults to `semanal`.
- **The spend cell's fallback.** In the summary's spend cell, `|| 0` applies
  to the already formatted text, not to the number.

## Model

| member | source | states |
|---|---|---|
| `JsValues.NumOrZero` | src/app.jsx:300-301 | The `or 0` fallback on an amount gives the amount when one is present and 0 otherwise. A falsy 0 and a missing value read the same. |
| `JsValues.Digits` | src/app.jsx:64 | The decimal text of a natural number is non-empty and made only of digits. |
| `JsValues.DecimalRoundTrip` | src/app.jsx:34-35 | Reading back the decimal text that `${n}` produces for an integer gives `n`. |
| `JsValues.DecimalInjective` | src/app.jsx:64 | Two integers render to the same text if and only if they are equal. |
| `Projects.ReportFileName` | src/app.jsx:44 | The file-name template `Reporte_WM_<tag>_<date>.pdf`. |
| `Projects.SameDateFileNames` | src/app.jsx:98 | Two reports saved on the same date get the same file name if and only if their tags are equal. |
| `Projects.ReportFileNameParts` | src/app.jsx:44 | A report file name is `Reporte_WM_`, the tag, `_`, the date and `.pdf`, and each part can be read back at its position. |
| `Projects.ReportFileNameInjective` | src/app.jsx:75 | For tags of equal length, two file names are equal if and only if the tags and the dates are equal. |
| `CashFlow.Contribution` | src/app.jsx:300-302 | What one project adds to the running total: its budget minus its spend, each read with the `or 0` fallback. |
| `CashFlow.Reduce` | src/app.jsx:299-302 | The `reduce` callback applied left to right from a seed, one project at a time. |
| `CashFlow.Total` | src/app.jsx:299-303 | The KPI value: the fold seeded with 0. |
| `CashFlow.ContributionReadsMissingAsZero` | src/app.jsx:300-302 | A project adds its budget minus its spend. Each amount is the field's number, or 0 when the field is absent or null. |
| `CashFlow.ReduceFromSeed` | src/app.jsx:299-303 | The left fold from any seed equals the seed plus the budget total minus the spend total. |
| `CashFlow.TotalIsBudgetMinusSpend` | src/app.jsx:299-303 | The KPI equals the sum of all budgets minus the sum of all spends. |
| `CashFlow.TotalOfNoProjects` | src/app.jsx:303 | An empty project list gives the seed, 0. |
| `CashFlow.TotalOfOneProject` | src/app.jsx:299-303 | A one-project list gives that project's contribution. |
| `CashFlow.TotalAdditive` | src/app.jsx:299-303 | The KPI of two concatenated lists is the sum of their KPIs. |
| `CashFlow.TotalNegativeWhenOverspent` | src/app.jsx:299-303 | The KPI is negative if and only if total spend exceeds total budget. |
| `CashFlow.CardText` | src/app.jsx:299-303 | The card shows `$` followed by the locale rendering of budget total minus spend total. |
| `DetailReport.AmountCell` | src/app.jsx:34-35 | A budget or spend cell: `$` followed by the decimal text of the amount, or of 0 when the amount is missing, null or 0. |
| `DetailReport.EfficiencyCell` | src/app.jsx:36 | The efficiency rendered with one decimal, or as `Infinity`/`-Infinity`, followed by `%`. |
| `DetailReport.DetailRow` | src/app.jsx:32-37 | The single body row: `Financiero`, the budget cell, the spend cell and the efficiency cell. |
| `DetailReport.Report` | src/app.jsx:14-44 | The per-project document: company name, subtitle, `FECHA: <date>`, `Proyecto: <name>`, the financial table, the closing and footer lines, and the file name from the name and the date. |
| `DetailReport.Efficiency` | src/app.jsx:36 | Never NaN. It is 0 when either field is absent, or when both read as 0. It is spend / budget × 100 for a nonzero budget. It is +Infinity for a zero or null budget with positive spend, and -Infinity for one with negative spend. |
| `DetailReport.EfficiencyWithinBudget` | src/app.jsx:36 | With a positive budget and a recorded spend, the efficiency is finite. It lies in [0, 100] if and only if 0 ≤ spend ≤ budget. |
| `DetailReport.AmountCellDefault` | src/app.jsx:34-35 | A budget or spend cell is `$0` if and only if the field is missing, null or 0. |
| `DetailReport.AmountCellDeterminesAmount` | src/app.jsx:34-35 | Two amount cells are equal if and only if the amounts they render are equal. |
| `DetailReport.EfficiencyCellZeroBudget` | src/app.jsx:36 | A zero or null budget with positive spend is printed `Infinity%`, and with negative spend `-Infinity%`. There is no zero-budget guard. |
| `DetailReport.EfficiencyCellFinite` | src/app.jsx:36 | In every other case the efficiency is finite, and the cell is its one-decimal rendering followed by `%`. |
| `DetailReport.ReportShape` | src/app.jsx:14-44 | The report has one row under the four-column header `Concepto/Monto Presupuestado/Gasto Real/Eficiencia`. Its amount cells are `$0` exactly for falsy amounts. Its efficiency cell ends in `%`. Its file name carries the name text and the date. |
| `DetailReport.ReportOfUnnamedProject` | src/app.jsx:28-44 | A project with no name is shown as `undefined` or `null`, both in the heading line and in the file name. |
| `DetailReport.QuarterSpent` | src/app.jsx:36 | Budget 1000 with spend 250 gives an efficiency of 25. |
| `DetailReport.SpendWithoutBudget` | src/app.jsx:36 | Budget 0 with spend 500 gives an efficiency of +Infinity, not 0. |
| `ExecutiveSummary.NameCell` | src/app.jsx:63 | The name, or `Sin nombre` when it is missing, null or empty. |
| `ExecutiveSummary.ProgressCell` | src/app.jsx:64 | The decimal text of the progress, or of 0 when it is falsy, followed by `%`. |
| `ExecutiveSummary.SpentCell` | src/app.jsx:65 | `$` followed by the locale text of the spend, or `0` when the spend is missing or null or its locale text is empty. |
| `ExecutiveSummary.StatusCell` | src/app.jsx:66 | The status, or `Activo` when it is missing, null or empty. |
| `ExecutiveSummary.SummaryRow` | src/app.jsx:62-67 | One project's row: name, progress, spend and status cells, in that order. |
| `ExecutiveSummary.PeriodText` | src/app.jsx:47 | The period as interpolated: `semanal` when the argument is left out, otherwise the argument's text. |
| `ExecutiveSummary.Report` | src/app.jsx:53-99 | The summary document for either logo outcome: the logo and title x depend on the outcome, and the company name, the table and the file name from the period and date do not. |
| `ExecutiveSummary.SummaryRows` | src/app.jsx:62-67 | The map produces exactly one row per project, and row i is built from project i. |
| `ExecutiveSummary.SummaryRowsAppend` | src/app.jsx:62-67 | Mapping concatenated project lists gives the concatenation of their row lists, so input order is kept. |
| `ExecutiveSummary.SummaryRowDefaults` | src/app.jsx:63-66 | Each row has 4 cells. A missing or empty name becomes `Sin nombre`. Progress shows `0%` if and only if it is missing, null or 0, and otherwise its decimal value. A missing spend shows `$0`, and a present one shows `$` and its locale text. A missing or empty status becomes `Activo`. Present values pass through. |
| `ExecutiveSummary.ReportTable` | src/app.jsx:62-74 | The table header is `Proyecto/Avance/Gastado/Estado`. It has one 4-cell row per project, in input order. |
| `ExecutiveSummary.VariantsAgree` | src/app.jsx:53-99 | The logo-loaded and logo-failed documents are equal except for the logo and the title x, which is 32 against 15. |
| `ExecutiveSummary.DefaultPeriodIsWeekly` | src/app.jsx:47 | Omitting the period gives the same document as passing `semanal`. |
| `ExecutiveSummary.ButtonFileNames` | src/app.jsx:375-376 | The weekly and monthly buttons save under `Reporte_WM_semanal_<date>.pdf` and `Reporte_WM_mensual_<date>.pdf`, and the two names differ. |
| `ExecutiveSummary.EmptyMonthlyReport` | src/app.jsx:47-75 | With no projects, the monthly report has an empty body under the header and the file name `Reporte_WM_mensual_<date>.pdf`. |
| `Alerts.Prepend` | src/app.jsx:156 | The new alert comes first. The list grows by exactly one. Existing alerts follow in their old order. |
| `Alerts.Receive` | src/app.jsx:156 | The alert list after a series of arrivals, each one applied with the prepend updater in arrival order. |
| `Alerts.ReceiveNewestFirst` | src/app.jsx:156 | After alerts arrive one by one, the list is the arrivals in reverse order followed by the earlier list. |
| `Alerts.LaterAlertShownFirst` | src/app.jsx:156 | A later arrival is shown above an earlier one, and the earlier list stays at the end. |

## Left out

- PDF drawing is not modelled: fill colours, rectangles, fonts, coordinates other than the title x, table styling, `doc.save` and `doc.lastAutoTable`. These belong to a foreign library that mutates an opaque document. The model records what is drawn and the file name.
- Loading the logo image asynchronously is not modelled. Its outcome is the `HeaderVariant` parameter. If `addImage` throws inside the loaded branch, the only effects are a console warning and a missing image. The model treats that branch as drawing the logo.
- The hosted-database fetches and the realtime subscriptions and their teardown are not modelled, because they are network I/O. The project list, the alerts that arrive and the date string are inputs.
- `toLocaleString()`, `toLocaleDateString()` and `toFixed(1)` are not computed. They depend on the locale and on floating point. The first and the last are the abstract functions of `NumberFormat`, and the date is an opaque string.
- DetailReport.Efficiency: the quotient is computed on exact reals, not on doubles. Double rounding, and which way `toFixed(1)` rounds a tie, are therefore not captured. Signed zero is also not modelled, and no integer input can divide by -0.
- CashFlow.Reduce: it sums exact integers. The JavaScript `reduce` adds doubles, so fractional amounts are rounded there and sums beyond 2^53 lose precision; the model captures neither.
- JsValues.Decimal: it renders every integer in plain decimal. JavaScript switches to exponent notation from 1e21, and the model does not. Amounts and progress are integers, so fractional values are not modelled.
- The React components are not modelled: layout, role switching, the manual toggle, the chart, the inventory viewer (`StockViewer`) and the project buttons. These are UI, and the buttons appear only as the calls they make.
- The CSV import is not modelled, because it only shows a placeholder alert. The fixed `3 Activas` alert count is also not modelled, because it is a literal.
- `src/index.jsx` is not modelled, because it only starts React.
- The project `id` field is not modelled, because it is used only as a display key.
