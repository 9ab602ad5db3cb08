/** The paged preview and the download of a dataset (backend/api/download.py).
    The file system is a parameter: the map from each existing path to the
    table `pd.read_csv` reads from it. */
module Pagination {
  import opened Wrappers

  const UploadDir := "backend/uploads"
  const CleanedDir := "backend/storage/cleaned"

  /** A cell of a table as pandas holds it: missing (NaN) or a value, kept
      as its text. */
  type Cell = Option<string>

  /** A CSV file as read: its column names and its rows, in file order. */
  datatype Frame = Frame(columns: seq<string>, rows: seq<seq<Cell>>)

  /** The JSON body the preview returns. */
  datatype Preview = Preview(columns: seq<string>, rows: seq<seq<string>>, totalPages: int, currentPage: int)

  /** Why a request fails: HTTP 404, or the ZeroDivisionError a page size of
      0 raises (HTTP 500). */
  datatype PreviewError = NotFound | DivisionByZero

  /** `os.path.join(dir, f"{dataset_id}.csv")`. */
  function CsvPath(dir: string, datasetId: string): string
  {
    dir + "/" + datasetId + ".csv"
  }

  /** The file both endpoints serve: the cleaned copy when it exists, else
      the upload, else none. */
  function DatasetPath(existing: set<string>, datasetId: string): (path: Option<string>)
    ensures CsvPath(CleanedDir, datasetId) in existing ==> path == Some(CsvPath(CleanedDir, datasetId))
    ensures CsvPath(CleanedDir, datasetId) !in existing && CsvPath(UploadDir, datasetId) in existing ==>
              path == Some(CsvPath(UploadDir, datasetId))
    ensures path.None? <==> CsvPath(CleanedDir, datasetId) !in existing && CsvPath(UploadDir, datasetId) !in existing
    ensures path.Some? ==> path.value in existing
  {
    var cleaned := CsvPath(CleanedDir, datasetId);
    var original := CsvPath(UploadDir, datasetId);
    if cleaned in existing then Some(cleaned)
    else if original in existing then Some(original)
    else None
  }

  /** `math.ceil(a / b)`, on the exact quotient. */
  function CeilDiv(a: int, b: int): (q: int)
    requires b != 0
    ensures b > 0 ==> (q - 1) * b < a <= q * b
    ensures b < 0 ==> q * b <= a < (q - 1) * b
  {
    if b > 0 then -((-a) / b) else a / b
  }

  /** The index Python's slicing uses for a bound `i` of a sequence of
      length `n`: negative bounds count from the end, and every bound is
      clipped to [0, n]. */
  function SliceBound(i: int, n: nat): (k: nat)
    ensures k <= n
    ensures 0 <= i <= n ==> k == i
  {
    if i < 0 then (if i + n < 0 then 0 else i + n) else if i > n then n else i
  }

  /** `xs[start:end]` (and `df.iloc[start:end]`) in Python. */
  function PySlice<T>(xs: seq<T>, start: int, end: int): (r: seq<T>)
    ensures |r| <= |xs|
  {
    var s := SliceBound(start, |xs|);
    var e := SliceBound(end, |xs|);
    if s < e then xs[s..e] else []
  }

  /** The rows `preview_dataset` slices out for `page` (1-based). */
  function PageRows<T>(rows: seq<T>, page: int, pageSize: int): seq<T>
  {
    var start := (page - 1) * pageSize;
    PySlice(rows, start, start + pageSize)
  }

  /** `fillna("")`: missing cells become the empty string. */
  function FillRow(row: seq<Cell>): (r: seq<string>)
    ensures |r| == |row|
    ensures forall k :: 0 <= k < |row| ==> r[k] == row[k].GetOr("")
  {
    if row == [] then [] else [row[0].GetOr("")] + FillRow(row[1..])
  }

  function FillRows(rows: seq<seq<Cell>>): (r: seq<seq<string>>)
    ensures |r| == |rows|
    ensures forall i :: 0 <= i < |rows| ==> r[i] == FillRow(rows[i])
  {
    if rows == [] then [] else [FillRow(rows[0])] + FillRows(rows[1..])
  }

  /** `preview_dataset(dataset_id, page, page_size)`. */
  function PreviewDataset(files: map<string, Frame>, datasetId: string, page: int, pageSize: int): Result<Preview, PreviewError>
  {
    match DatasetPath(files.Keys, datasetId)
    case None => Err(NotFound)
    case Some(path) =>
      var df := files[path];
      if pageSize == 0 then Err(DivisionByZero)
      else
        Ok(Preview(df.columns, FillRows(PageRows(df.rows, page, pageSize)),
                   CeilDiv(|df.rows|, pageSize), page))
  }

  /** `download_dataset(dataset_id)`: the path of the file sent back, or
      404. */
  function DownloadDataset(existing: set<string>, datasetId: string): Result<string, PreviewError>
  {
    match DatasetPath(existing, datasetId)
    case None => Err(NotFound)
    case Some(path) => Ok(path)
  }

  /** Both endpoints serve the same file and fail with 404 on the same ids. */
  lemma SameFileServed(files: map<string, Frame>, datasetId: string, page: int, pageSize: int)
    requires pageSize != 0
    ensures PreviewDataset(files, datasetId, page, pageSize).Err? <==> DownloadDataset(files.Keys, datasetId).Err?
    ensures DownloadDataset(files.Keys, datasetId).Ok? ==>
              PreviewDataset(files, datasetId, page, pageSize).value.columns ==
              files[DownloadDataset(files.Keys, datasetId).value].columns
  {
  }

  /** The preview echoes the page requested, lists every column of the file,
      fills missing cells with "", and fails only for an unknown dataset or
      a zero page size. */
  lemma PreviewShape(files: map<string, Frame>, datasetId: string, page: int, pageSize: int)
    ensures DatasetPath(files.Keys, datasetId).None? ==> PreviewDataset(files, datasetId, page, pageSize) == Err(NotFound)
    ensures DatasetPath(files.Keys, datasetId).Some? && pageSize == 0 ==>
              PreviewDataset(files, datasetId, page, pageSize) == Err(DivisionByZero)
    ensures DatasetPath(files.Keys, datasetId).Some? && pageSize != 0 ==>
              var df := files[DatasetPath(files.Keys, datasetId).value];
              var p := PreviewDataset(files, datasetId, page, pageSize);
              && p.Ok?
              && p.value.columns == df.columns
              && p.value.currentPage == page
              && p.value.rows == FillRows(PageRows(df.rows, page, pageSize))
              && p.value.totalPages == CeilDiv(|df.rows|, pageSize)
  {
  }

  /** For a page from 1 on, the page holds the rows from (page-1)*size up to
      page*size (or the end), in file order; at most `pageSize` of them. */
  lemma PageIsWindow<T>(rows: seq<T>, page: int, pageSize: int)
    requires page >= 1 && pageSize >= 1
    ensures var start := (page - 1) * pageSize;
            var end := if page * pageSize < |rows| then page * pageSize else |rows|;
            PageRows(rows, page, pageSize) == if start < end then rows[start..end] else []
    ensures |PageRows(rows, page, pageSize)| <= pageSize
  {
    MulStep(page, pageSize);
  }

  /** Pages before the last are full, and pages after the last are empty. */
  lemma PageSizes<T>(rows: seq<T>, page: int, pageSize: int)
    requires page >= 1 && pageSize >= 1
    ensures page < CeilDiv(|rows|, pageSize) ==> |PageRows(rows, page, pageSize)| == pageSize
    ensures page > CeilDiv(|rows|, pageSize) ==> PageRows(rows, page, pageSize) == []
  {
    MulStep(page, pageSize);
    var q := CeilDiv(|rows|, pageSize);
    if page < q {
      MulLe(page, q - 1, pageSize);
    } else if page > q {
      MulLe(q, page - 1, pageSize);
    }
  }

  lemma MulStep(k: int, n: int)
    requires k >= 1 && n >= 0
    ensures (k - 1) * n >= 0 && (k - 1) * n + n == k * n
  {
    MulLe(0, k - 1, n);
  }

  lemma MulLe(a: int, b: int, c: int)
    requires a <= b && c >= 0
    ensures a * c <= b * c
  {
    assert b * c - a * c == (b - a) * c;
  }

  /** Pages 1 to k, concatenated. */
  function PagesUpTo<T>(rows: seq<T>, k: nat, pageSize: int): seq<T>
  {
    if k == 0 then [] else PagesUpTo(rows, k - 1, pageSize) + PageRows(rows, k, pageSize)
  }

  lemma {:induction false} PagesUpToPrefix<T>(rows: seq<T>, k: nat, pageSize: int)
    requires pageSize >= 1
    ensures PagesUpTo(rows, k, pageSize) == rows[..if k * pageSize < |rows| then k * pageSize else |rows|]
  {
    if k > 0 {
      PagesUpToPrefix(rows, k - 1, pageSize);
      MulStep(k, pageSize);
      PrefixGrows(rows, (k - 1) * pageSize, k * pageSize);
    }
  }

  /** The rows before `start`, followed by the slice from `start` to `end`,
      are the rows before `end`. */
  lemma PrefixGrows<T>(rows: seq<T>, start: int, end: int)
    requires 0 <= start <= end
    ensures var prev := if start < |rows| then start else |rows|;
            var next := if end < |rows| then end else |rows|;
            rows[..prev] + PySlice(rows, start, end) == rows[..next]
  {
    var prev := if start < |rows| then start else |rows|;
    var next := if end < |rows| then end else |rows|;
    if start < |rows| {
      assert rows[..prev] + rows[prev..next] == rows[..next];
    }
  }

  /** Reading pages 1 to total_pages in turn yields every row once, in file
      order. */
  lemma PagesCoverAllRows<T>(rows: seq<T>, pageSize: int)
    requires pageSize >= 1
    ensures PagesUpTo(rows, CeilDiv(|rows|, pageSize), pageSize) == rows
  {
    var q := CeilDiv(|rows|, pageSize);
    assert q >= 0 by {
      if q < 0 { MulLe(q, -1, pageSize); }
    }
    PagesUpToPrefix(rows, q, pageSize);
    assert rows[..|rows|] == rows;
  }

  /** A 45-row file in pages of 20: page 2 has 20 rows,
      page 3 has 5 and there are 3 pages. */
  lemma FortyFiveRows<T>(rows: seq<T>)
    requires |rows| == 45
    ensures CeilDiv(|rows|, 20) == 3
    ensures |PageRows(rows, 2, 20)| == 20
    ensures |PageRows(rows, 3, 20)| == 5
  {
  }

  /** As written, a page number below 1 is not refused: Python's negative
      slice bounds count from the end, so page -1 of a 45-row file with pages
      of 20 returns rows 5 to 24. */
  lemma NegativePageWrapsAround<T>(rows: seq<T>)
    requires |rows| == 45
    ensures PageRows(rows, -1, 20) == rows[5..25]
    ensures PageRows(rows, 0, 20) == []
  {
  }

  /** The preview as evidently intended: a page number below 1 is refused
      with a 404-like error rather than sliced from the end. */
  datatype CheckedError = Failed(reason: PreviewError) | InvalidPage

  function CheckedPreview(files: map<string, Frame>, datasetId: string, page: int, pageSize: int): (r: Result<Preview, CheckedError>)
    ensures page < 1 ==> r == Err(InvalidPage)
    ensures page >= 1 ==> match PreviewDataset(files, datasetId, page, pageSize)
                          case Ok(p) => r == Ok(p)
                          case Err(e) => r == Err(Failed(e))
  {
    if page < 1 then Err(InvalidPage)
    else match PreviewDataset(files, datasetId, page, pageSize)
         case Ok(p) => Ok(p)
         case Err(e) => Err(Failed(e))
  }

  /** Every page the checked preview returns is a window of the file's rows
      starting at (page-1)*size, so no request reads rows from the end. */
  lemma CheckedPreviewIsWindow(files: map<string, Frame>, datasetId: string, page: int, pageSize: int)
    requires pageSize >= 1
    requires CheckedPreview(files, datasetId, page, pageSize).Ok?
    ensures page >= 1
    ensures var df := files[DatasetPath(files.Keys, datasetId).value];
            var start := (page - 1) * pageSize;
            var end := if page * pageSize < |df.rows| then page * pageSize else |df.rows|;
            CheckedPreview(files, datasetId, page, pageSize).value.rows ==
              FillRows(if start < end then df.rows[start..end] else [])
  {
    var df := files[DatasetPath(files.Keys, datasetId).value];
    PageIsWindow(df.rows, page, pageSize);
  }
}
