/** The dashboard's control state (frontend/src/pages/DashboardPage.jsx):
    the drop-column toggle list, the column list offered for dropping, the
    paged preview of the cleaned table with its Previous/Next rule, and the
    loading flag around a cleaning run. Server responses are parameters of
    the methods that await them. */
module Dashboard {
  import opened Wrappers
  import opened Seqs
  import JsValues
  import Pagination
  import Simulate

  const PageSize: int := 20

  /** `toggleColumn(col)`: remove every occurrence of a listed column, or
      append an unlisted one. */
  function Toggled(cols: seq<string>, col: string): seq<string>
  {
    if col in cols then Without(cols, col) else cols + [col]
  }

  /** Toggling flips the column's membership and leaves every other
      column's membership alone. */
  lemma ToggleFlips(cols: seq<string>, col: string, other: string)
    requires other != col
    ensures col in Toggled(cols, col) <==> col !in cols
    ensures other in Toggled(cols, col) <==> other in cols
  {
    WithoutMember(cols, col, col);
    WithoutMember(cols, col, other);
  }

  /** On a duplicate-free list, toggling the column at position k removes
      exactly that position and keeps the others in order; toggling an
      absent column appends it at the end. */
  lemma ToggleShape(cols: seq<string>, col: string, k: nat)
    requires NoDuplicates(cols)
    ensures k < |cols| && cols[k] == col ==> Toggled(cols, col) == cols[..k] + cols[k + 1..]
    ensures col !in cols ==> Toggled(cols, col) == cols + [col]
  {
    if k < |cols| && cols[k] == col {
      assert cols == cols[..k] + [col] + cols[k + 1..];
      assert col !in cols[..k] by {
        forall i | 0 <= i < k ensures cols[..k][i] != col {
          assert cols[..k][i] == cols[i];
        }
      }
      var rest := cols[k + 1..];
      assert col !in rest by {
        forall i | 0 <= i < |rest| ensures rest[i] != col {
          assert rest[i] == cols[k + 1 + i];
        }
      }
      WithoutAppend(cols[..k] + [col], cols[k + 1..], col);
      WithoutAppend(cols[..k], [col], col);
      WithoutAbsent(cols[..k], col);
      WithoutAbsent(cols[k + 1..], col);
      assert Without([col], col) == [];
    }
  }

  /** Toggling an absent column twice gives back the original list. */
  lemma ToggleTwice(cols: seq<string>, col: string)
    requires col !in cols
    ensures Toggled(Toggled(cols, col), col) == cols
  {
    WithoutAppend(cols, [col], col);
    WithoutAbsent(cols, col);
    assert Without([col], col) == [];
  }

  /** A duplicate-free list stays duplicate-free. */
  lemma ToggleKeepsNoDuplicates(cols: seq<string>, col: string)
    requires NoDuplicates(cols)
    ensures NoDuplicates(Toggled(cols, col))
  {
    if col in cols {
      WithoutNoDuplicates(cols, col);
    } else {
      var t := cols + [col];
      forall i, j | 0 <= i < j < |t| ensures t[i] != t[j] {
        if j == |cols| {
          assert t[i] == cols[i];
        } else {
          assert t[i] == cols[i] && t[j] == cols[j];
        }
      }
    }
  }

  /** `analytics.data_types`: each group may be absent. */
  datatype DataTypes = DataTypes(
    numeric: Option<seq<string>>,
    categorical: Option<seq<string>>,
    boolean: Option<seq<string>>,
    datetime: Option<seq<string>>)

  /** `allColumns`: numeric, categorical, boolean then datetime columns;
      an absent group, or absent `data_types`, contributes nothing. */
  function AllColumns(types: Option<DataTypes>): (cols: seq<string>)
    ensures types.None? ==> cols == []
    ensures types.Some? ==>
              var t := types.value;
              |cols| == |t.numeric.GetOr([])| + |t.categorical.GetOr([])| + |t.boolean.GetOr([])| + |t.datetime.GetOr([])|
              && cols[..|t.numeric.GetOr([])|] == t.numeric.GetOr([])
              && forall c :: c in cols <==>
                   c in t.numeric.GetOr([]) || c in t.categorical.GetOr([]) || c in t.boolean.GetOr([]) || c in t.datetime.GetOr([])
  {
    match types
    case None => []
    case Some(t) =>
      t.numeric.GetOr([]) + t.categorical.GetOr([]) + t.boolean.GetOr([]) + t.datetime.GetOr([])
  }

  /** A failed request (the promise rejects). */
  datatype FetchError = RequestFailed

  /** The JSON body of a preview response as the client sees it; a field
      the server did not send is None. */
  datatype PreviewBody = PreviewBody(
    rows: Option<seq<JsValues.Row>>,
    columns: Option<seq<string>>,
    totalRows: Option<int>,
    totalPages: Option<int>,
    currentPage: Option<int>)

  /** A row of strings as the record `to_dict(orient="records")` makes of
      it, keyed by the column names. */
  function Record(columns: seq<string>, row: seq<string>): (r: JsValues.Row)
    ensures |r| == if |columns| < |row| then |columns| else |row|
    ensures forall i :: 0 <= i < |r| ==> r[i] == (columns[i], JsValues.Str(row[i]))
  {
    if columns == [] || row == [] then []
    else [(columns[0], JsValues.Str(row[0]))] + Record(columns[1..], row[1..])
  }

  function Records(columns: seq<string>, rows: seq<seq<string>>): (rs: seq<JsValues.Row>)
    ensures |rs| == |rows|
    ensures forall i :: 0 <= i < |rows| ==> rs[i] == Record(columns, rows[i])
  {
    if rows == [] then [] else [Record(columns, rows[0])] + Records(columns, rows[1..])
  }

  /** The body `preview_dataset` sends: it carries `total_pages` but no
      `total_rows`. */
  function ServerBody(p: Pagination.Preview): PreviewBody
  {
    PreviewBody(Some(Records(p.columns, p.rows)), Some(p.columns), None, Some(p.totalPages), Some(p.currentPage))
  }

  /** `res.data.total_rows || 0`. */
  function TotalRowsRead(body: PreviewBody): int
  {
    match body.totalRows
    case None => 0
    case Some(n) => n
  }

  /** `Math.ceil(totalRows / PAGE_SIZE)`. */
  function PageCount(totalRows: int): int
  {
    Pagination.CeilDiv(totalRows, PageSize)
  }

  /** As written, the client derives its page count from a field the server
      never sends: after any preview the page count is 0, so for every page
      from 1 on the Next button stays enabled. */
  lemma ClientPageCountIsZero(p: Pagination.Preview, page: int)
    requires page >= 1
    ensures TotalRowsRead(ServerBody(p)) == 0
    ensures PageCount(TotalRowsRead(ServerBody(p))) == 0
    ensures !NextDisabled(page, PageCount(TotalRowsRead(ServerBody(p))))
  {
  }

  /** The body as evidently intended: the server also sends `total_rows`,
      the number of rows of the file. */
  function IntendedServerBody(p: Pagination.Preview, totalRows: nat): (b: PreviewBody)
    ensures TotalRowsRead(b) == totalRows
    ensures b.totalPages == Some(p.totalPages)
  {
    PreviewBody(Some(Records(p.columns, p.rows)), Some(p.columns), Some(totalRows), Some(p.totalPages), Some(p.currentPage))
  }

  /** With the intended body, the client's page count is the server's
      `total_pages` for pages of 20 rows, and Next is disabled exactly on
      the last page: on every earlier page it stays enabled. */
  lemma IntendedPageCountAgrees(files: map<string, Pagination.Frame>, datasetId: string, page: int)
    requires Pagination.PreviewDataset(files, datasetId, page, PageSize).Ok?
    ensures var p := Pagination.PreviewDataset(files, datasetId, page, PageSize).value;
            var df := files[Pagination.DatasetPath(files.Keys, datasetId).value];
            var count := PageCount(TotalRowsRead(IntendedServerBody(p, |df.rows|)));
            count == p.totalPages && (NextDisabled(page, count) <==> page == p.totalPages)
    ensures var p := Pagination.PreviewDataset(files, datasetId, page, PageSize).value;
            var df := files[Pagination.DatasetPath(files.Keys, datasetId).value];
            var count := PageCount(TotalRowsRead(IntendedServerBody(p, |df.rows|)));
            forall q :: 1 <= q < p.totalPages ==> !NextDisabled(q, count)
  {
  }

  /** `disabled={page === 1}` on Previous. */
  predicate PrevDisabled(page: int)
  {
    page == 1
  }

  /** `disabled={page === totalPages}` on Next. */
  predicate NextDisabled(page: int, totalPages: int)
  {
    page == totalPages
  }

  /** The dashboard component's state. */
  class DashboardState {
    var rows: seq<JsValues.Row>
    var columns: seq<string>
    var page: int
    var totalRows: int
    var cleaningLoading: bool
    var cleanResult: Option<Simulate.SimulationResult>
    var handleMissing: bool
    var removeDuplicates: bool
    var outlierMethod: string
    var dropColumns: seq<string>
    /** The value of `cleaningLoading` at each point where the component
        awaited a response. */
    ghost var loadingAtAwait: seq<bool>

    /** Reachable through the pager and the column toggles: the page number
        never drops below 1, and no column is marked for dropping twice. */
    predicate Valid()
      reads this
    {
      page >= 1 && NoDuplicates(dropColumns)
    }

    /** The initial state of every `useState`. */
    constructor ()
      ensures Valid()
      ensures rows == [] && columns == [] && page == 1 && totalRows == 0
      ensures !cleaningLoading && cleanResult.None?
      ensures handleMissing && removeDuplicates && outlierMethod == "iqr" && dropColumns == []
      ensures loadingAtAwait == []
    {
      rows := [];
      columns := [];
      page := 1;
      totalRows := 0;
      cleaningLoading := false;
      cleanResult := None;
      handleMissing := true;
      removeDuplicates := true;
      outlierMethod := "iqr";
      dropColumns := [];
      loadingAtAwait := [];
    }

    /** The page count `DataTable` shows. */
    function TotalPages(): int
      reads this
    {
      PageCount(totalRows)
    }

    /** `toggleColumn(col)`. */
    method ToggleColumn(col: string)
      requires Valid()
      modifies this
      ensures Valid()
      ensures dropColumns == Toggled(old(dropColumns), col)
      ensures rows == old(rows) && columns == old(columns) && page == old(page) && totalRows == old(totalRows)
      ensures cleaningLoading == old(cleaningLoading) && cleanResult == old(cleanResult)
      ensures handleMissing == old(handleMissing) && removeDuplicates == old(removeDuplicates)
      ensures outlierMethod == old(outlierMethod) && loadingAtAwait == old(loadingAtAwait)
    {
      ToggleKeepsNoDuplicates(dropColumns, col);
      if col in dropColumns {
        dropColumns := Without(dropColumns, col);
      } else {
        dropColumns := dropColumns + [col];
      }
    }

    /** `loadPreview(p)` once `fetchDatasetPage` has answered with
        `response`: a failed request changes nothing and reports the
        failure; otherwise absent fields default to empty lists and 0, and
        the page becomes `p`. */
    method LoadPreview(p: int, response: Result<PreviewBody, FetchError>) returns (failed: bool)
      modifies this
      ensures failed <==> response.Err?
      ensures response.Err? ==>
                rows == old(rows) && columns == old(columns) && page == old(page) && totalRows == old(totalRows)
      ensures response.Ok? ==>
                rows == response.value.rows.GetOr([]) && columns == response.value.columns.GetOr([])
                && totalRows == TotalRowsRead(response.value) && page == p
      ensures cleaningLoading == old(cleaningLoading) && cleanResult == old(cleanResult)
      ensures handleMissing == old(handleMissing) && removeDuplicates == old(removeDuplicates)
      ensures outlierMethod == old(outlierMethod) && dropColumns == old(dropColumns)
      ensures loadingAtAwait == old(loadingAtAwait) + [cleaningLoading]
    {
      loadingAtAwait := loadingAtAwait + [cleaningLoading];
      if response.Err? {
        return true;
      }
      var data := response.value;
      rows := if data.rows.Some? then data.rows.value else [];
      columns := if data.columns.Some? then data.columns.value else [];
      totalRows := if data.totalRows.Some? then data.totalRows.value else 0;
      page := p;
      failed := false;
    }

    /** A click on Previous, which the button allows only when enabled. */
    method ClickPrevious(response: Result<PreviewBody, FetchError>) returns (failed: bool)
      requires Valid() && !PrevDisabled(page)
      modifies this
      ensures Valid()
      ensures failed <==> response.Err?
      ensures failed ==>
                rows == old(rows) && columns == old(columns) && page == old(page) && totalRows == old(totalRows)
      ensures !failed ==>
                rows == response.value.rows.GetOr([]) && columns == response.value.columns.GetOr([])
                && totalRows == TotalRowsRead(response.value) && page == old(page) - 1
      ensures cleaningLoading == old(cleaningLoading) && cleanResult == old(cleanResult)
      ensures handleMissing == old(handleMissing) && removeDuplicates == old(removeDuplicates)
      ensures outlierMethod == old(outlierMethod) && dropColumns == old(dropColumns)
      ensures loadingAtAwait == old(loadingAtAwait) + [cleaningLoading]
    {
      failed := LoadPreview(page - 1, response);
    }

    /** A click on Next, which the button allows only when enabled. */
    method ClickNext(response: Result<PreviewBody, FetchError>) returns (failed: bool)
      requires Valid() && !NextDisabled(page, TotalPages())
      modifies this
      ensures Valid()
      ensures failed <==> response.Err?
      ensures failed ==>
                rows == old(rows) && columns == old(columns) && page == old(page) && totalRows == old(totalRows)
      ensures !failed ==>
                rows == response.value.rows.GetOr([]) && columns == response.value.columns.GetOr([])
                && totalRows == TotalRowsRead(response.value) && page == old(page) + 1
      ensures cleaningLoading == old(cleaningLoading) && cleanResult == old(cleanResult)
      ensures handleMissing == old(handleMissing) && removeDuplicates == old(removeDuplicates)
      ensures outlierMethod == old(outlierMethod) && dropColumns == old(dropColumns)
      ensures loadingAtAwait == old(loadingAtAwait) + [cleaningLoading]
    {
      failed := LoadPreview(page + 1, response);
    }

    /** The request body `runCleaning` sends: the current controls. */
    function CleaningPayload(): Simulate.Payload
      reads this
    {
      Simulate.Payload(Some(outlierMethod), Some(dropColumns), Some(handleMissing), Some(removeDuplicates))
    }

    /** `runCleaning()` once `simulateCleaning` has answered with
        `response` and, if it succeeded, the preview of page 1 with
        `preview`. The flag is set at every await and cleared afterwards,
        whether or not a request failed. */
    method RunCleaning(response: Result<Simulate.SimulationResult, FetchError>,
                       preview: Result<PreviewBody, FetchError>) returns (sent: Simulate.Payload, failed: bool)
      requires Valid()
      modifies this
      ensures Valid()
      ensures sent == old(CleaningPayload())
      ensures !cleaningLoading
      ensures |loadingAtAwait| > |old(loadingAtAwait)| && loadingAtAwait[..|old(loadingAtAwait)|] == old(loadingAtAwait)
      ensures forall i :: |old(loadingAtAwait)| <= i < |loadingAtAwait| ==> loadingAtAwait[i]
      ensures failed <==> response.Err? || preview.Err?
      ensures response.Ok? ==> cleanResult == Some(response.value)
      ensures response.Err? ==> cleanResult == old(cleanResult)
      ensures response.Ok? && preview.Ok? ==>
                page == 1 && rows == preview.value.rows.GetOr([]) && columns == preview.value.columns.GetOr([])
                && totalRows == TotalRowsRead(preview.value)
      ensures response.Err? || preview.Err? ==>
                rows == old(rows) && columns == old(columns) && page == old(page) && totalRows == old(totalRows)
      ensures dropColumns == old(dropColumns) && handleMissing == old(handleMissing)
      ensures removeDuplicates == old(removeDuplicates) && outlierMethod == old(outlierMethod)
    {
      cleaningLoading := true;
      sent := CleaningPayload();
      loadingAtAwait := loadingAtAwait + [cleaningLoading];
      if response.Err? {
        failed := true;
      } else {
        cleanResult := Some(response.value);
        failed := LoadPreview(1, preview);
      }
      cleaningLoading := false;
    }
  }

  /** The controls' initial values ask for filling, de-duplication and IQR
      outlier removal, and no column drop. */
  lemma DefaultControlsStages()
    ensures Simulate.CleaningStages(Simulate.Payload(Some("iqr"), Some([]), Some(true), Some(true)))
              == [Simulate.FillMissing, Simulate.DropDuplicates, Simulate.RemoveOutliers("iqr")]
  {
  }

  /** Choosing "No Outlier Removal" sends "none", which runs no outlier
      stage. */
  lemma NoneOptionKeepsOutliers(dropColumns: seq<string>, handleMissing: bool, removeDuplicates: bool)
    ensures forall m :: Simulate.RemoveOutliers(m) !in
              Simulate.CleaningStages(Simulate.Payload(Some("none"), Some(dropColumns), Some(handleMissing), Some(removeDuplicates)))
  {
  }
}
