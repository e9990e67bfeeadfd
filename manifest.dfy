/**
 * `Listed.feed_list` of createBPM_Y5FixingVersion.py: from the precal
 * table and the requested CCDs it builds the biascor and norm-dflatcor
 * path lists (one entry per precal row and CCD, row-major), and from the
 * object table the pixcor object list. Every entry carries its CCD number.
 *
 * The tables arrive already parsed as sequences of rows (FeedAsLoaded
 * models how a one-row table, as np.loadtxt returns it, makes feed_list
 * fail); numpy's fixed-width string columns are assumed wide enough for
 * every value.
 */
module Manifest {

  import opened Format
  import opened PosixPath

  /** One row of the object (pixcor) table. */
  datatype ObjRow = ObjRow(
    expnum: int, ccdnum: int, band: string,
    root: string, path: string, filename: string, compression: string)

  /** One row of the precal table; `unitname` is the night, e.g. 20170815. */
  datatype PrecalRow = PrecalRow(archivePath: string, reqnum: int, unitname: int, attnum: int)

  /** A `(path, ccdnum)` record of the lists feed_list returns. */
  datatype Entry = Entry(path: string, ccdnum: int)

  /**
   * The state of a `Listed` object. Its fields are set once by the
   * constructor and never reassigned, so it is a value here.
   */
  datatype Listed = Listed(
    obj: seq<ObjRow>, precal: seq<PrecalRow>, ccd: seq<int>,
    badpix: string, bindir: string, band: string,
    defBadpix: string, defFunky: string, rootDir: string)

  const DefaultBadpix: string := "bad_pixel_20160506.lst"
  const DefaultFunky: string := "funky_column.lst"
  const DefaultRootDir: string := "/archive_data/desarchive/"

  /** `Listed(...)` with the constructor's default arguments, once the tables are loaded. */
  function NewListed(
    obj: seq<ObjRow>, precal: seq<PrecalRow>, ccd: seq<int>,
    badpix: string, bindir: string, band: string): Listed
  {
    Listed(obj, precal, ccd, badpix, bindir, band, DefaultBadpix, DefaultFunky, DefaultRootDir)
  }

  /** The two precal products: bias-corrected frames, and flats for one band. */
  datatype Product = Biascor | Flatcor(band: string)

  /** Sub-folder of the archive path holding the product. */
  function Subfolder(p: Product): string {
    match p
    case Biascor => "biascor"
    case Flatcor(_) => "norm-dflatcor"
  }

  /**
   * The '_'-separated fields of a product file name, from the formatted
   * night, CCD, request and attempt: `D`, `n<night>`, (the band, for a
   * flat), `c<cc>`, `r<req>p<aa>`, and the product suffix.
   */
  function NameParts(p: Product, night: string, cc: string, req: string, att: string): seq<string> {
    match p
    case Biascor => ["D", "n" + night, "c" + cc, "r" + req + "p" + att, "biascor.fits"]
    case Flatcor(band) => ["D", "n" + night, band, "c" + cc, "r" + req + "p" + att, "norm-dflatcor.fits"]
  }

  /**
   * `'D_n{0}_c{1:02}_r{2}p{3:02}'.format(...) + '_biascor.fits'`, and for
   * flats the band after the night and `'_norm-dflatcor.fits'`: the
   * fields joined by '_' (FileNamePattern spells the literal form out).
   */
  function FileName(p: Product, row: PrecalRow, ccd: int): string {
    JoinWith(NameParts(p, IntToString(row.unitname), Pad2(ccd), IntToString(row.reqnum), Pad2(row.attnum)), '_')
  }

  /** `os.path.join(root_dir, archive_path, subfolder, file_name)`. */
  function ProductPath(rootDir: string, p: Product, row: PrecalRow, ccd: int): string {
    Join(rootDir, [row.archivePath, Subfolder(p), FileName(p, row, ccd)])
  }

  function ProductEntry(rootDir: string, p: Product, row: PrecalRow, ccd: int): Entry {
    Entry(ProductPath(rootDir, p, row, ccd), ccd)
  }

  /** What the inner loop appends for one precal row and CCD, for the given product. */
  function EntryMaker(rootDir: string, p: Product): (PrecalRow, int) -> Entry {
    (row: PrecalRow, ccd: int) => ProductEntry(rootDir, p, row, ccd)
  }

  /** The entries one precal row contributes: `mk(row, c)` for each requested CCD, in request order. */
  function RowEntries(row: PrecalRow, ccds: seq<int>, mk: (PrecalRow, int) -> Entry): seq<Entry>
    decreases |ccds|
  {
    if |ccds| == 0 then []
    else RowEntries(row, ccds[..|ccds| - 1], mk) + [mk(row, ccds[|ccds| - 1])]
  }

  /** The nested loop: the rows' entries, in table order. */
  function Cross(precal: seq<PrecalRow>, ccds: seq<int>, mk: (PrecalRow, int) -> Entry): seq<Entry>
    decreases |precal|
  {
    if |precal| == 0 then []
    else Cross(precal[..|precal| - 1], ccds, mk) + RowEntries(precal[|precal| - 1], ccds, mk)
  }

  /** The biascor or flatcor list of feed_list. */
  function ProductList(rootDir: string, p: Product, precal: seq<PrecalRow>, ccds: seq<int>): seq<Entry> {
    Cross(precal, ccds, EntryMaker(rootDir, p))
  }

  /** `os.path.join(root, path, filename)` of an object-table row. */
  function ObjPath(row: ObjRow): string {
    Join(row.root, [row.path, row.filename])
  }

  /** The object list: the comprehension over the object table with `f_merge`. */
  function ObjList(objs: seq<ObjRow>): seq<Entry> {
    seq(|objs|, i requires 0 <= i < |objs| => Entry(ObjPath(objs[i]), objs[i].ccdnum))
  }

  /** One pass of the inner loop appends the entry for `ccds[j]`. */
  lemma RowEntriesSnoc(row: PrecalRow, ccds: seq<int>, mk: (PrecalRow, int) -> Entry, j: nat, front: seq<Entry>)
    requires j < |ccds|
    ensures front + RowEntries(row, ccds[..j], mk) + [mk(row, ccds[j])]
            == front + RowEntries(row, ccds[..j + 1], mk)
  {
    assert ccds[..j + 1][..j] == ccds[..j];
  }

  lemma CrossSnoc(precal: seq<PrecalRow>, ccds: seq<int>, mk: (PrecalRow, int) -> Entry, n: nat)
    requires n < |precal|
    ensures Cross(precal[..n + 1], ccds, mk) == Cross(precal[..n], ccds, mk) + RowEntries(precal[n], ccds, mk)
  {
    assert precal[..n + 1][..n] == precal[..n];
  }

  /**
   * One pass of the inner loop: appending the entry the loop body builds
   * for `ccds[j]` extends the row's entries by one CCD.
   */
  lemma LoopStep(rootDir: string, p: Product, row: PrecalRow, ccds: seq<int>, j: nat,
                 front: seq<Entry>, acc: seq<Entry>)
    requires j < |ccds|
    requires acc == front + RowEntries(row, ccds[..j], EntryMaker(rootDir, p))
    ensures acc + [Entry(Join(rootDir, [row.archivePath, Subfolder(p), FileName(p, row, ccds[j])]), ccds[j])]
            == front + RowEntries(row, ccds[..j + 1], EntryMaker(rootDir, p))
  {
    var mk := EntryMaker(rootDir, p);
    assert mk(row, ccds[j]) == Entry(Join(rootDir, [row.archivePath, Subfolder(p), FileName(p, row, ccds[j])]), ccds[j]);
    RowEntriesSnoc(row, ccds, mk, j, front);
  }

  /**
   * The inner loop of feed_list, over the requested CCDs for one precal
   * row: each pass appends that CCD's biascor entry, then its flatcor entry.
   */
  method AppendRow(rootDir: string, band: string, row: PrecalRow, ccds: seq<int>,
                   biasIn: seq<Entry>, flatIn: seq<Entry>)
    returns (biascor: seq<Entry>, flatcor: seq<Entry>)
    ensures biascor == biasIn + RowEntries(row, ccds, EntryMaker(rootDir, Biascor))
    ensures flatcor == flatIn + RowEntries(row, ccds, EntryMaker(rootDir, Flatcor(band)))
  {
    biascor, flatcor := biasIn, flatIn;
    var j := 0;
    while j < |ccds|
      invariant 0 <= j <= |ccds|
      invariant biascor == biasIn + RowEntries(row, ccds[..j], EntryMaker(rootDir, Biascor))
      invariant flatcor == flatIn + RowEntries(row, ccds[..j], EntryMaker(rootDir, Flatcor(band)))
    {
      var iterCcd := ccds[j];
      var fnBias := FileName(Biascor, row, iterCcd);
      var auxLine := Join(rootDir, [row.archivePath, "biascor", fnBias]);
      LoopStep(rootDir, Biascor, row, ccds, j, biasIn, biascor);
      biascor := biascor + [Entry(auxLine, iterCcd)];
      var fnFlat := FileName(Flatcor(band), row, iterCcd);
      var tmpLine := Join(rootDir, [row.archivePath, "norm-dflatcor", fnFlat]);
      LoopStep(rootDir, Flatcor(band), row, ccds, j, flatIn, flatcor);
      flatcor := flatcor + [Entry(tmpLine, iterCcd)];
      j := j + 1;
    }
    assert ccds[..j] == ccds;
  }

  /**
   * feed_list: the nested loop over precal rows (outer) and requested CCDs
   * (inner, AppendRow) appending to the biascor and flatcor lists, then the
   * object list.
   */
  method FeedList(l: Listed) returns (biascor: seq<Entry>, flatcor: seq<Entry>, obj: seq<Entry>)
    ensures biascor == ProductList(l.rootDir, Biascor, l.precal, l.ccd)
    ensures flatcor == ProductList(l.rootDir, Flatcor(l.band), l.precal, l.ccd)
    ensures obj == ObjList(l.obj)
  {
    biascor, flatcor := [], [];
    var n := 0;
    while n < |l.precal|
      invariant 0 <= n <= |l.precal|
      invariant biascor == Cross(l.precal[..n], l.ccd, EntryMaker(l.rootDir, Biascor))
      invariant flatcor == Cross(l.precal[..n], l.ccd, EntryMaker(l.rootDir, Flatcor(l.band)))
    {
      CrossSnoc(l.precal, l.ccd, EntryMaker(l.rootDir, Biascor), n);
      CrossSnoc(l.precal, l.ccd, EntryMaker(l.rootDir, Flatcor(l.band)), n);
      biascor, flatcor := AppendRow(l.rootDir, l.band, l.precal[n], l.ccd, biascor, flatcor);
      n := n + 1;
    }
    assert l.precal[..n] == l.precal;
    obj := ObjList(l.obj);
  }

  /** The three lists feed_list returns. */
  datatype Feed = Feed(bias: seq<Entry>, flat: seq<Entry>, obj: seq<Entry>)

  function FeedOf(l: Listed): Feed {
    Feed(ProductList(l.rootDir, Biascor, l.precal, l.ccd),
         ProductList(l.rootDir, Flatcor(l.band), l.precal, l.ccd),
         ObjList(l.obj))
  }

  // ---------------------------------------------------------------------
  // The tables as np.loadtxt returns them

  /**
   * What `np.loadtxt` (lines 53-62, default `ndmin=0`) returns for a
   * table: a 0-d record when the table has exactly one row, since the
   * result is squeezed; the 1-d array of its rows otherwise.
   */
  datatype Loaded<T> = Record(row: T) | Rows(rows: seq<T>)

  function LoadTxt<T>(rows: seq<T>): Loaded<T> {
    if |rows| == 1 then Record(rows[0]) else Rows(rows)
  }

  /** How feed_list stops on a 0-d table. */
  datatype FeedError =
    | NoShape      // `self.precal.shape[0]` of a 0-d array (line 103): IndexError
    | NotIterable  // `for x in self.obj` over a 0-d array (lines 135-136): TypeError

  datatype Fed = Fed(feed: Feed) | Raised(error: FeedError)

  /**
   * feed_list as written, on the tables as np.loadtxt leaves them: the
   * precal loop fails on a one-row precal table, and after it the object
   * comprehension on a one-row object table; otherwise the lists are those
   * of FeedOf. The rest of the model reads the tables as row sequences
   * (what `ndmin=1` would give).
   */
  function FeedAsLoaded(l: Listed): (r: Fed)
    ensures r == Raised(NoShape) <==> |l.precal| == 1
    ensures r == Raised(NotIterable) <==> |l.precal| != 1 && |l.obj| == 1
    ensures r.Fed? ==> r.feed == FeedOf(l)
  {
    match LoadTxt(l.precal)
    case Record(_) => Raised(NoShape)
    case Rows(precal) =>
      match LoadTxt(l.obj)
      case Record(_) => Raised(NotIterable)
      case Rows(objs) => Fed(FeedOf(l.(precal := precal, obj := objs)))
  }

  // ---------------------------------------------------------------------
  // Count and order of the lists

  /** A row contributes one entry per requested CCD, the j-th for `ccds[j]`. */
  lemma {:induction false} RowEntriesAt(row: PrecalRow, ccds: seq<int>, mk: (PrecalRow, int) -> Entry)
    ensures |RowEntries(row, ccds, mk)| == |ccds|
    ensures forall j :: 0 <= j < |ccds| ==> RowEntries(row, ccds, mk)[j] == mk(row, ccds[j])
    decreases |ccds|
  {
    if |ccds| > 0 {
      RowEntriesAt(row, ccds[..|ccds| - 1], mk);
    }
  }

  /** The nested loop yields exactly |precal| * |ccds| entries. */
  lemma {:induction false} CrossLength(precal: seq<PrecalRow>, ccds: seq<int>, mk: (PrecalRow, int) -> Entry)
    ensures |Cross(precal, ccds, mk)| == |precal| * |ccds|
    decreases |precal|
  {
    if |precal| > 0 {
      CrossLength(precal[..|precal| - 1], ccds, mk);
      RowEntriesAt(precal[|precal| - 1], ccds, mk);
      assert (|precal| - 1) * |ccds| + |ccds| == |precal| * |ccds|;
    }
  }

  /** Entry `n * |ccds| + j` is built from precal row `n` and CCD `ccds[j]`: row-major order. */
  lemma {:induction false} CrossAt(precal: seq<PrecalRow>, ccds: seq<int>, mk: (PrecalRow, int) -> Entry, n: nat, j: nat, k: nat)
    requires n < |precal| && j < |ccds| && k == n * |ccds| + j
    ensures k < |Cross(precal, ccds, mk)|
    ensures Cross(precal, ccds, mk)[k] == mk(precal[n], ccds[j])
    decreases |precal|
  {
    var init, last := precal[..|precal| - 1], precal[|precal| - 1];
    var front := Cross(init, ccds, mk);
    RowEntriesAt(last, ccds, mk);
    if n < |precal| - 1 {
      CrossAt(init, ccds, mk, n, j, k);
      assert precal[n] == init[n];
    } else {
      CrossLength(init, ccds, mk);
      assert n * |ccds| == |front|;
    }
  }

  lemma RowMajorSplit(k: nat, c: nat, rows: nat)
    requires k < rows * c
    ensures c > 0 && 0 <= k / c < rows && 0 <= k % c < c && k == (k / c) * c + k % c
  {
    if c == 0 {
      assert false;
    }
    var q := k / c;
    assert q * c <= k;
    assert (rows - q) * c == rows * c - q * c;
  }

  /** feed_list yields exactly |precal| * |ccds| entries in each of its two lists. */
  lemma ProductListLength(rootDir: string, p: Product, precal: seq<PrecalRow>, ccds: seq<int>)
    ensures |ProductList(rootDir, p, precal, ccds)| == |precal| * |ccds|
  {
    CrossLength(precal, ccds, EntryMaker(rootDir, p));
  }

  /** Entry `k = n * |ccds| + j` is the product path of precal row `n` for CCD `ccds[j]`. */
  lemma ProductListAt(rootDir: string, p: Product, precal: seq<PrecalRow>, ccds: seq<int>, n: nat, j: nat, k: nat)
    requires n < |precal| && j < |ccds| && k == n * |ccds| + j
    ensures k < |ProductList(rootDir, p, precal, ccds)|
    ensures ProductList(rootDir, p, precal, ccds)[k] == Entry(ProductPath(rootDir, p, precal[n], ccds[j]), ccds[j])
  {
    CrossAt(precal, ccds, EntryMaker(rootDir, p), n, j, k);
    MakerEntry(rootDir, p, precal[n], ccds[j]);
  }

  lemma MakerEntry(rootDir: string, p: Product, row: PrecalRow, ccd: int)
    ensures EntryMaker(rootDir, p)(row, ccd) == Entry(ProductPath(rootDir, p, row, ccd), ccd)
  {
  }

  /** Entry k carries CCD `ccds[k mod |ccds|]`: the CCDs repeat in request order for every precal row. */
  lemma ProductListCcd(rootDir: string, p: Product, precal: seq<PrecalRow>, ccds: seq<int>, k: nat)
    requires k < |ProductList(rootDir, p, precal, ccds)|
    ensures |ccds| > 0
    ensures ProductList(rootDir, p, precal, ccds)[k].ccdnum == ccds[k % |ccds|]
  {
    ProductListLength(rootDir, p, precal, ccds);
    RowMajorSplit(k, |ccds|, |precal|);
    ProductListAt(rootDir, p, precal, ccds, k / |ccds|, k % |ccds|, k);
  }

  // ---------------------------------------------------------------------
  // Shape of the file names and paths

  /** The fields a reader recovers from a bias or flat file name. */
  datatype NameFields = NameFields(night: int, ccd: int, reqnum: int, attnum: int)

  function DecodeFields(n: string, c: string, rp: string): Option<NameFields> {
    if |n| == 0 || n[0] != 'n' || |c| == 0 || c[0] != 'c' || |rp| == 0 || rp[0] != 'r' then None
    else
      var ra := Split(rp[1..], 'p');
      if |ra| != 2 then None
      else
        match (ParseInt(n[1..]), ParseInt(c[1..]), ParseInt(ra[0]), ParseInt(ra[1]))
        case (Some(u), Some(cc), Some(r), Some(a)) => Some(NameFields(u, cc, r, a))
        case _ => None
  }

  /**
   * Reads a bias name `D_n<night>_c<cc>_r<req>p<aa>_biascor.fits` or a flat
   * name `D_n<night>_<band>_c<cc>_r<req>p<aa>_norm-dflatcor.fits` back
   * into its numbers, by splitting on '_' and then on 'p'.
   */
  function DecodeFileName(p: Product, name: string): Option<NameFields> {
    var parts := Split(name, '_');
    match p
    case Biascor =>
      if |parts| != 5 || parts[0] != "D" || parts[4] != "biascor.fits" then None
      else DecodeFields(parts[1], parts[2], parts[3])
    case Flatcor(band) =>
      if |parts| != 6 || parts[0] != "D" || parts[2] != band || parts[5] != "norm-dflatcor.fits" then None
      else DecodeFields(parts[1], parts[3], parts[4])
  }

  /** A band label that fits the naming convention: no '_' and no '/'. */
  predicate PlainBand(p: Product) {
    p.Flatcor? ==> '_' !in p.band && '/' !in p.band
  }

  /** A band label that stays inside one path component. */
  predicate SlashFreeBand(p: Product) {
    p.Flatcor? ==> '/' !in p.band
  }

  lemma FieldsHaveNo(row: PrecalRow, ccd: int, c: char)
    requires !IsDigit(c) && c != '-'
    ensures c !in IntToString(row.unitname) && c !in Pad2(ccd)
    ensures c !in IntToString(row.reqnum) && c !in Pad2(row.attnum)
  {
    IntToStringHasNo(row.unitname, c);
    IntToStringHasNo(row.reqnum, c);
    Pad2HasNo(ccd, c);
    Pad2HasNo(row.attnum, c);
  }

  /** The request/attempt field `r<req>p<aa>` splits on 'p' into its two numbers. */
  lemma ReqAttSplit(r: string, a: string)
    requires 'p' !in r && 'p' !in a
    ensures Split(("r" + r + "p" + a)[1..], 'p') == [r, a]
  {
    assert ("r" + r + "p" + a)[1..] == r + ['p'] + a;
    SplitCons(r, 'p', a);
    SplitNone(a, 'p');
  }

  lemma JoinFive(f: seq<string>)
    requires |f| == 5
    ensures JoinWith(f, '_') == f[0] + "_" + (f[1] + "_" + (f[2] + "_" + (f[3] + "_" + f[4])))
  {
    JoinWithCons(f[3], f[4..], '_');
    assert [f[3]] + f[4..] == f[3..];
    JoinWithCons(f[2], f[3..], '_');
    assert [f[2]] + f[3..] == f[2..];
    JoinWithCons(f[1], f[2..], '_');
    assert [f[1]] + f[2..] == f[1..];
    JoinWithCons(f[0], f[1..], '_');
    assert [f[0]] + f[1..] == f;
  }

  lemma JoinSix(f: seq<string>)
    requires |f| == 6
    ensures JoinWith(f, '_') == f[0] + "_" + JoinWith(f[1..], '_')
    ensures JoinWith(f[1..], '_') == f[1] + "_" + (f[2] + "_" + (f[3] + "_" + (f[4] + "_" + f[5])))
  {
    JoinFive(f[1..]);
    JoinWithCons(f[0], f[1..], '_');
    assert [f[0]] + f[1..] == f;
  }

  lemma BiasNameNested(u: string, cc: string, r: string, a: string)
    ensures "D_n" + u + "_c" + cc + "_r" + r + "p" + a + "_biascor.fits"
         == "D" + "_" + (("n" + u) + "_" + (("c" + cc) + "_" + (("r" + r + "p" + a) + "_" + "biascor.fits")))
  {
  }

  lemma BiasNamePattern(u: string, cc: string, r: string, a: string)
    ensures JoinWith(NameParts(Biascor, u, cc, r, a), '_')
         == "D_n" + u + "_c" + cc + "_r" + r + "p" + a + "_biascor.fits"
  {
    JoinFive(NameParts(Biascor, u, cc, r, a));
    BiasNameNested(u, cc, r, a);
  }

  lemma FlatNameNested(u: string, band: string, cc: string, r: string, a: string)
    ensures "D_n" + u + "_" + band + "_c" + cc + "_r" + r + "p" + a + "_norm-dflatcor.fits"
         == "D" + "_" + (("n" + u) + "_" + (band + "_" + (("c" + cc) + "_" + (("r" + r + "p" + a) + "_" + "norm-dflatcor.fits"))))
  {
  }

  lemma FlatNamePattern(u: string, band: string, cc: string, r: string, a: string)
    ensures JoinWith(NameParts(Flatcor(band), u, cc, r, a), '_')
         == "D_n" + u + "_" + band + "_c" + cc + "_r" + r + "p" + a + "_norm-dflatcor.fits"
  {
    JoinSix(NameParts(Flatcor(band), u, cc, r, a));
    FlatNameNested(u, band, cc, r, a);
  }

  /** The file names are exactly the format strings of the source, field for field. */
  lemma FileNamePattern(p: Product, row: PrecalRow, ccd: int)
    ensures var u, cc, r, a := IntToString(row.unitname), Pad2(ccd), IntToString(row.reqnum), Pad2(row.attnum);
      FileName(p, row, ccd) == match p
        case Biascor => "D_n" + u + "_c" + cc + "_r" + r + "p" + a + "_biascor.fits"
        case Flatcor(band) => "D_n" + u + "_" + band + "_c" + cc + "_r" + r + "p" + a + "_norm-dflatcor.fits"
  {
    var u, cc, r, a := IntToString(row.unitname), Pad2(ccd), IntToString(row.reqnum), Pad2(row.attnum);
    match p
    case Biascor => BiasNamePattern(u, cc, r, a);
    case Flatcor(band) => FlatNamePattern(u, band, cc, r, a);
  }

  /** No field of a name holds `c` when the band and the formatted numbers do not. */
  lemma NamePartsHaveNo(p: Product, u: string, cc: string, r: string, a: string, c: char)
    requires c !in "Dncrp" && c !in "biascor.fits" && c !in "norm-dflatcor.fits"
    requires p.Flatcor? ==> c !in p.band
    requires c !in u && c !in cc && c !in r && c !in a
    ensures forall i :: 0 <= i < |NameParts(p, u, cc, r, a)| ==> c !in NameParts(p, u, cc, r, a)[i]
  {
  }

  /** The night, CCD and request/attempt fields read back to their numbers. */
  lemma DecodeFieldsRoundTrip(row: PrecalRow, ccd: int)
    ensures DecodeFields("n" + IntToString(row.unitname), "c" + Pad2(ccd),
                         "r" + IntToString(row.reqnum) + "p" + Pad2(row.attnum))
            == Some(NameFields(row.unitname, ccd, row.reqnum, row.attnum))
  {
    var u, cc := IntToString(row.unitname), Pad2(ccd);
    FieldsHaveNo(row, ccd, 'p');
    ReqAttSplit(IntToString(row.reqnum), Pad2(row.attnum));
    IntRoundTrip(row.unitname);
    IntRoundTrip(row.reqnum);
    Pad2RoundTrip(ccd);
    Pad2RoundTrip(row.attnum);
    assert ("n" + u)[1..] == u && ("c" + cc)[1..] == cc;
  }

  /** A name that splits into the fields of `p` decodes as its night, CCD and request/attempt fields do. */
  lemma DecodeNameParts(p: Product, name: string, u: string, cc: string, r: string, a: string)
    requires Split(name, '_') == NameParts(p, u, cc, r, a)
    ensures DecodeFileName(p, name) == DecodeFields("n" + u, "c" + cc, "r" + r + "p" + a)
  {
  }

  /**
   * Naming convention: every bias and flat file name reads back to the
   * night, CCD, request and attempt numbers it was formatted from.
   */
  lemma FileNameRoundTrip(p: Product, row: PrecalRow, ccd: int)
    requires PlainBand(p)
    ensures DecodeFileName(p, FileName(p, row, ccd))
            == Some(NameFields(row.unitname, ccd, row.reqnum, row.attnum))
  {
    var u, cc, r, a := IntToString(row.unitname), Pad2(ccd), IntToString(row.reqnum), Pad2(row.attnum);
    var f := NameParts(p, u, cc, r, a);
    assert Split(FileName(p, row, ccd), '_') == f by {
      FieldsHaveNo(row, ccd, '_');
      NamePartsHaveNo(p, u, cc, r, a, '_');
      SplitJoinWith(f, '_');
    }
    DecodeFieldsRoundTrip(row, ccd);
    DecodeNameParts(p, FileName(p, row, ccd), u, cc, r, a);
  }

  /**
   * Different (night, CCD, request, attempt) never give the same file
   * name of one kind, whatever the band: the band sits at a fixed place
   * between fields that hold no '_'.
   */
  lemma FileNameInjective(p: Product, row1: PrecalRow, ccd1: int, row2: PrecalRow, ccd2: int)
    requires FileName(p, row1, ccd1) == FileName(p, row2, ccd2)
    ensures ccd1 == ccd2 && row1.unitname == row2.unitname
    ensures row1.reqnum == row2.reqnum && row1.attnum == row2.attnum
  {
    match p
    case Biascor =>
      FileNameRoundTrip(p, row1, ccd1);
      FileNameRoundTrip(p, row2, ccd2);
    case Flatcor(band) =>
      FieldsHaveNo(row1, ccd1, '_');
      FieldsHaveNo(row2, ccd2, '_');
      FieldsHaveNo(row1, ccd1, 'p');
      FieldsHaveNo(row2, ccd2, 'p');
      FlatFieldsEqual(band, IntToString(row1.unitname), Pad2(ccd1), IntToString(row1.reqnum), Pad2(row1.attnum),
                      IntToString(row2.unitname), Pad2(ccd2), IntToString(row2.reqnum), Pad2(row2.attnum));
      IntRoundTrip(row1.unitname);
      IntRoundTrip(row2.unitname);
      IntRoundTrip(row1.reqnum);
      IntRoundTrip(row2.reqnum);
      Pad2Injective(ccd1, ccd2);
      Pad2Injective(row1.attnum, row2.attnum);
  }

  /** Equal flat names of one band have equal night, CCD, request and attempt texts. */
  lemma FlatFieldsEqual(band: string, u1: string, cc1: string, r1: string, a1: string,
                        u2: string, cc2: string, r2: string, a2: string)
    requires '_' !in u1 && '_' !in u2 && '_' !in cc1 && '_' !in cc2 && 'p' !in r1 && 'p' !in r2
    requires JoinWith(NameParts(Flatcor(band), u1, cc1, r1, a1), '_')
          == JoinWith(NameParts(Flatcor(band), u2, cc2, r2, a2), '_')
    ensures u1 == u2 && cc1 == cc2 && r1 == r2 && a1 == a2
  {
    var f1, f2 := NameParts(Flatcor(band), u1, cc1, r1, a1), NameParts(Flatcor(band), u2, cc2, r2, a2);
    JoinSix(f1);
    JoinSix(f2);
    var ra1, ra2 := "r" + r1 + "p" + a1, "r" + r2 + "p" + a2;
    var y1, y2 := ra1 + "_" + "norm-dflatcor.fits", ra2 + "_" + "norm-dflatcor.fits";
    var x1, x2 := ("c" + cc1) + "_" + y1, ("c" + cc2) + "_" + y2;
    var t1, t2 := ("n" + u1) + "_" + (band + "_" + x1), ("n" + u2) + "_" + (band + "_" + x2);
    CutAt("D", t1, "D", t2, '_');
    CutAt("n" + u1, band + "_" + x1, "n" + u2, band + "_" + x2, '_');
    assert u1 == ("n" + u1)[1..];
    assert x1 == (band + "_" + x1)[|band| + 1..];
    CutAt("c" + cc1, y1, "c" + cc2, y2, '_');
    assert cc1 == ("c" + cc1)[1..];
    assert ra1 == y1[..|y1| - 19];
    assert r1 + "p" + a1 == ra1[1..];
    CutAt(r1, a1, r2, a2, 'p');
  }

  /** A product file name is a plain path component: non-empty and free of '/'. */
  lemma FileNameIsPlain(p: Product, row: PrecalRow, ccd: int)
    requires SlashFreeBand(p)
    ensures IsPlain(FileName(p, row, ccd)) && '/' !in FileName(p, row, ccd)
  {
    var f := NameParts(p, IntToString(row.unitname), Pad2(ccd), IntToString(row.reqnum), Pad2(row.attnum));
    FieldsHaveNo(row, ccd, '/');
    NamePartsHaveNo(p, IntToString(row.unitname), Pad2(ccd), IntToString(row.reqnum), Pad2(row.attnum), '/');
    JoinWithHasNo(f, '_', '/');
    assert f[..|f| - 1][..1] == ["D"];
  }

  /**
   * Path shape: with a plain archive path the product path is
   * `root_dir[/]archive_path/subfolder/file_name`.
   */
  lemma ProductPathShape(rootDir: string, p: Product, row: PrecalRow, ccd: int)
    requires SlashFreeBand(p) && IsPlain(row.archivePath)
    ensures ProductPath(rootDir, p, row, ccd)
            == WithSep(rootDir) + row.archivePath + "/" + Subfolder(p) + "/" + FileName(p, row, ccd)
  {
    FileNameIsPlain(p, row, ccd);
    JoinThree(rootDir, row.archivePath, Subfolder(p), FileName(p, row, ccd));
  }

  /**
   * The basename of every product path is its file name, which reads back
   * to the row's night, request and attempt numbers and the CCD, whatever
   * the root and archive path.
   */
  lemma ProductPathNames(rootDir: string, p: Product, row: PrecalRow, ccd: int)
    requires PlainBand(p)
    ensures Basename(ProductPath(rootDir, p, row, ccd)) == FileName(p, row, ccd)
    ensures DecodeFileName(p, Basename(ProductPath(rootDir, p, row, ccd)))
            == Some(NameFields(row.unitname, ccd, row.reqnum, row.attnum))
  {
    FileNameIsPlain(p, row, ccd);
    BasenameOfJoin(rootDir, [row.archivePath, Subfolder(p), FileName(p, row, ccd)]);
    FileNameRoundTrip(p, row, ccd);
  }

  /** The object path's basename is the row's own file name. */
  lemma ObjPathBasename(row: ObjRow)
    requires '/' !in row.filename
    ensures Basename(ObjPath(row)) == row.filename
  {
    BasenameOfJoin(row.root, [row.path, row.filename]);
  }
}
