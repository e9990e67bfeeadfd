# Y5 bad-pixel-mask driver, modelled in Dafny

`createBPM_Y5FixingVersion.py` builds the inputs of the per-CCD
bad-pixel-mask tool `mkbpm.py` and then calls that tool once per CCD.
Its class `Listed` holds three things: the object (pixcor) table, the
precalibration (precal) table, and the list of requested CCDs.

- `feed_list` crosses every precal row with every requested CCD. For each
  pair it builds the path of one bias-corrected frame and one normalised
  flat. It also builds the path of every object frame. Each entry is
  tagged with its CCD number.
- `make_bpm` then works through the requested CCDs, in order:
  - it selects that CCD's entries from each list;
  - it applies the "Y5 fix": the second night's bias is replaced by the
    first night's, then the first night is dropped from both lists;
  - it writes three temporary list files and builds the `mkbpm.py`
    command line.

The project has four modules:

- `Format`: Python's `str(int)`, `'{:02}'.format(int)` and
  `str.split`/`str.join` on one character. Each has a parser or inverse
  as a partner.
- `PosixPath`: Python 2's `posixpath.join` (a left fold in which an
  absolute component restarts the path) and `posixpath.basename`.
- `Manifest`: `feed_list`. It is imperative (the nested loop in
  `FeedList` and `AppendRow`) and is proved equal to the row-major
  specification `ProductList`. The file-name convention gets a decoder
  partner. `FeedAsLoaded` models how feed_list fails on a one-row
  table, as `np.loadtxt` loads it.
- `Bpm`: the `make_bpm` CCD loop. It covers:
  - the per-CCD selection;
  - the Y5 fix, done in place on fresh arrays (`ApplyY5Fix`) and
    specified by `Y5Fix`;
  - the argument vector given to the subprocess;
  - the loop itself (`MakeBpm`). The loop stops at the first CCD whose
    fix raises the index error.

`Listed`'s fields are set once by its constructor and never reassigned, so
`Listed` is a datatype value rather than a class. The only state that
changes in place is the set of lists built by the loops, and the copied
numpy arrays of the fix.

## Model

| member | source | states |
|---|---|---|
| Format.NatToString | createBPM_Y5FixingVersion.py:110-113 | the decimal text of a natural number is non-empty and all digits, has no leading zero, and is one digit exactly when the number is below 10 |
| Format.IntToString | createBPM_Y5FixingVersion.py:110-113 | `str(i)` starts with '-' exactly when `i` is negative; the rest is digits with no leading zero (a single `0` only for zero), so with IntRoundTrip it is the one canonical decimal text of `i` |
| Format.Pad2 | createBPM_Y5FixingVersion.py:110-113 | `{:02}` output has width at least two, is exactly two digits for 0..99, and is signed exactly for negatives; any text longer than two has no leading zero, so values of 100 and more and below -9 are printed unpadded; with Pad2RoundTrip this fixes the text |
| Format.NatRoundTrip | createBPM_Y5FixingVersion.py:110-113 | parsing the decimal text of a natural number gives the number back |
| Format.IntRoundTrip | createBPM_Y5FixingVersion.py:110-113 | parsing `str(i)` gives `i` back, for every int, negatives included |
| Format.DigitsValueLeadingZero | createBPM_Y5FixingVersion.py:110-113 | a leading zero does not change the value of a digit string |
| Format.Pad2RoundTrip | createBPM_Y5FixingVersion.py:110-113 | parsing the zero-padded CCD or attempt text gives the number back |
| Format.Pad2Injective | createBPM_Y5FixingVersion.py:110-113 | two different numbers never pad to the same text |
| Format.SplitNone | createBPM_Y5FixingVersion.py:234 | a string without the separator splits into itself alone |
| Format.Split | createBPM_Y5FixingVersion.py:234 | `str.split` on one character, the splitting half of the `Argv` model; it gives at least one piece, and SplitNone, SplitConcat and SplitJoinWith fix its value |
| Format.SplitConcat | createBPM_Y5FixingVersion.py:234 | splitting `a + sep + b` gives the pieces of `a` followed by the pieces of `b` |
| Format.SplitJoinWith | createBPM_Y5FixingVersion.py:110-114 | splitting a `c.join(parts)` on `c` gives the parts back when no part holds `c` |
| Format.JoinWithHasNo | createBPM_Y5FixingVersion.py:110-114 | a joined string holds a character other than the separator only if some part holds it |
| Format.Pad2HasNo | createBPM_Y5FixingVersion.py:110-113 | padded numbers hold only digits and '-' |
| PosixPath.JoinStep | createBPM_Y5FixingVersion.py:115-118 | one step of `os.path.join`: an absolute component replaces the path; otherwise the path is kept as a prefix; either way the component ends the result |
| PosixPath.Join | createBPM_Y5FixingVersion.py:115-118 | `os.path.join`, also used at lines 127-130, 134, 183-184 and 224: with no parts it is the first path, otherwise it ends with the last part; JoinPlain, JoinThree, JoinAbsoluteResets and BasenameOfJoin fix its value |
| PosixPath.Basename | createBPM_Y5FixingVersion.py:115-118 | partner of the join, used to read names back: the basename holds no '/' and is a suffix of the path |
| PosixPath.JoinPlain | createBPM_Y5FixingVersion.py:115-118 | joining plain components puts exactly one '/' between neighbours, and one after the root unless the root is empty or already ends in '/' |
| PosixPath.JoinThree | createBPM_Y5FixingVersion.py:115-118 | the three-component join of a product path is `root[/]archive/subfolder/name` |
| PosixPath.JoinHasNo | createBPM_Y5FixingVersion.py:224 | a character other than '/' appears in a join only if it appears in an input |
| PosixPath.JoinAbsoluteResets | createBPM_Y5FixingVersion.py:115-118 | a component starting with '/' discards everything joined before it |
| PosixPath.BasenameAfterSep | createBPM_Y5FixingVersion.py:225 | the basename of a directory-plus-'/'-plus-name is the name |
| PosixPath.BasenameOfJoin | createBPM_Y5FixingVersion.py:115-118 | the basename of a join is its last component, when that component holds no '/' |
| Manifest.AppendRow | createBPM_Y5FixingVersion.py:104-131 | the inner loop appends, to each list, the entries of one precal row for every requested CCD, in request order |
| Manifest.FeedList | createBPM_Y5FixingVersion.py:95-142 | the returned lists are exactly the row-major cross product of precal rows and CCDs (bias and flat), and the object paths of the table in table order |
| Manifest.RowEntriesAt | createBPM_Y5FixingVersion.py:104-131 | a row contributes one entry per requested CCD, the j-th built for the j-th CCD |
| Manifest.CrossLength | createBPM_Y5FixingVersion.py:103-131 | the nested loop yields \|precal\| * \|ccds\| entries |
| Manifest.CrossAt | createBPM_Y5FixingVersion.py:103-131 | entry n * \|ccds\| + j is built from precal row `n` and CCD `ccds[j]` |
| Manifest.ProductListLength | createBPM_Y5FixingVersion.py:101-131 | each product list has exactly \|precal\| * \|ccds\| entries |
| Manifest.ProductListAt | createBPM_Y5FixingVersion.py:101-131 | entry n * \|ccds\| + j is the product path of row `n` for CCD `ccds[j]`, tagged with that CCD |
| Manifest.ProductListCcd | createBPM_Y5FixingVersion.py:103-131 | entry k carries CCD ccds[k mod \|ccds\|]: the requested CCDs repeat, in order, for every night |
| Manifest.ReqAttSplit | createBPM_Y5FixingVersion.py:110 | the `r<req>p<att>` field splits on 'p' into its two numbers |
| Manifest.BiasNamePattern | createBPM_Y5FixingVersion.py:110-114 | the '_'-joined bias fields equal the literal `D_n{0}_c{1:02}_r{2}p{3:02}` + `_biascor.fits` |
| Manifest.FlatNamePattern | createBPM_Y5FixingVersion.py:121-126 | the '_'-joined flat fields equal the literal `D_n{0}_{1}_c{2:02}_r{3}p{4:02}` + `_norm-dflatcor.fits` |
| Manifest.FileNamePattern | createBPM_Y5FixingVersion.py:110-126 | every product file name is exactly the source's format string, filled in field for field |
| Manifest.FileName | createBPM_Y5FixingVersion.py:110-126 | the bias and flat file names; FileNamePattern equates them with the format strings, FileNameRoundTrip and FileNameInjective with the numbers they encode |
| Manifest.ProductPath | createBPM_Y5FixingVersion.py:115-130 | `os.path.join(root_dir, archive_path, subfolder, name)`; ProductPathShape gives its shape and ProductPathNames its basename |
| Manifest.DecodeFieldsRoundTrip | createBPM_Y5FixingVersion.py:110-113 | the night, CCD and request/attempt fields read back to their numbers |
| Manifest.FileNameRoundTrip | createBPM_Y5FixingVersion.py:107-126 | every bias file name, and every flat file name whose band holds no '_' or '/', decodes back to the night, CCD, request and attempt it was formatted from |
| Manifest.FileNameInjective | createBPM_Y5FixingVersion.py:107-126 | two product names of one kind (and, for flats, one band, whatever it holds) are equal only if night, CCD, request and attempt all are |
| Manifest.FlatFieldsEqual | createBPM_Y5FixingVersion.py:121-126 | equal flat names of one band, whatever the band holds, have equal night, CCD, request and attempt texts |
| Manifest.FileNameIsPlain | createBPM_Y5FixingVersion.py:110-126 | when the band holds no '/', a product file name is a non-empty path component free of '/' |
| Manifest.ProductPathShape | createBPM_Y5FixingVersion.py:115-130 | when the archive path is a plain component (non-empty, no leading or trailing '/') and the band holds no '/', a product path is `root_dir[/]archive_path/subfolder/file_name`, with subfolder `biascor` or `norm-dflatcor` |
| Manifest.ProductPathNames | createBPM_Y5FixingVersion.py:107-130 | whatever the root and archive path, when the band holds no '_' or '/', the basename of a product path is its file name, and it decodes to the row's numbers and the CCD |
| Manifest.ObjPathBasename | createBPM_Y5FixingVersion.py:134-136 | when the row's filename holds no '/', the basename of an object path is that filename |
| Manifest.ObjPath | createBPM_Y5FixingVersion.py:134-136 | `f_merge`'s join of root, path and filename; ObjPathBasename gives its basename |
| Manifest.ObjList | createBPM_Y5FixingVersion.py:134-136 | the comprehension over the object table: one entry per row, in table order, each tagged with its row's CCD |
| Manifest.NewListed | createBPM_Y5FixingVersion.py:21-30 | `Listed(...)` with the constructor's defaults `bad_pixel_20160506.lst`, `funky_column.lst` and `/archive_data/desarchive/` |
| Manifest.FeedAsLoaded | createBPM_Y5FixingVersion.py:53-64 | feed_list on the tables as `np.loadtxt` returns them: it raises at line 103 exactly when the precal table has one row, otherwise at lines 135-136 exactly when the object table has one row, and otherwise gives the lists of FeedOf |
| Bpm.Select | createBPM_Y5FixingVersion.py:196-197 | the boolean-mask selection keeps at most as many paths as there are entries |
| Bpm.RowsOn | createBPM_Y5FixingVersion.py:221 | the object rows kept for CCD m are all on m and all from the table |
| Bpm.SelectAppend | createBPM_Y5FixingVersion.py:196-197 | selection distributes over concatenation, so order is kept |
| Bpm.RowSelect | createBPM_Y5FixingVersion.py:103-119 | with no CCD requested twice, one precal row gives CCD m exactly one entry if m was requested, none otherwise |
| Bpm.CrossSelect | createBPM_Y5FixingVersion.py:196-197 | with no CCD requested twice, selecting CCD m from the nested loop's list gives one path per precal row, in order, and nothing when m was not requested |
| Bpm.ProductSelect | createBPM_Y5FixingVersion.py:196-197 | with no CCD requested twice, selecting a requested CCD m from a feed_list product list gives that CCD's product path for every precal row, in file order; an unrequested CCD gives nothing |
| Bpm.ObjSelect | createBPM_Y5FixingVersion.py:221 | selecting CCD m from the object list gives the paths of exactly the rows on m, in table order |
| Bpm.RowsOnComplete | createBPM_Y5FixingVersion.py:221 | no object row on CCD m is lost by the selection |
| Bpm.Y5Fix | createBPM_Y5FixingVersion.py:199-202 | the fix fails exactly when there are fewer than two biases; otherwise it leaves one bias fewer and drops the first flat |
| Bpm.Tail | createBPM_Y5FixingVersion.py:201-202 | Python's `[1:]`: the list is its first element followed by the result, and an empty list gives an empty result |
| Bpm.ApplyY5Fix | createBPM_Y5FixingVersion.py:196-202 | the in-place fix on copied arrays agrees with Y5Fix: the result starts with the first bias, followed by the third bias onwards |
| Bpm.SplitAppend | createBPM_Y5FixingVersion.py:224-234 | appending space-separated tokens and then splitting recovers the command's pieces followed by the tokens |
| Bpm.ValuesHaveNo | createBPM_Y5FixingVersion.py:224-231 | a space, tab, newline, carriage return, quote or backslash reaches the program path or an option value only through the bin directory, badpix directory, list names, output directory or uid |
| Bpm.ValuesAreWords | createBPM_Y5FixingVersion.py:224-231 | under ShlexSafe, the program path and every option value are non-empty and free of shlex's special characters |
| Bpm.ArgvLayout | createBPM_Y5FixingVersion.py:224-234 | under ShlexSafe, the argument vector is the mkbpm.py path followed by the eight flags and their values, in source order, and every token is non-empty and free of shlex's whitespace, quotes and escape, so splitting at spaces gives what `shlex.split` gives |
| Bpm.BpmNameRoundTrip | createBPM_Y5FixingVersion.py:225 | the mask name `bpm_c{:02}.fits` reads back to its CCD |
| Bpm.OutFileName | createBPM_Y5FixingVersion.py:225 | the `--outfile` path's basename names CCD m, whatever the output directory |
| Bpm.ArgvCcd | createBPM_Y5FixingVersion.py:224-234 | under ShlexSafe, mkbpm gets CCD m twice and consistently: as the `--ccdnum` value, and in the `--outfile` mask name |
| Bpm.OutFile | createBPM_Y5FixingVersion.py:225 | `'{0}/bpm_c{1:02}.fits'.format(dir_out, m)`; OutFileName reads CCD m back from its basename |
| Bpm.LogFile | createBPM_Y5FixingVersion.py:240 | `'{0}/log.bpm_c{1:02}'.format(dir_log, m)`, recorded in every job (Y5Job); LogFileName reads CCD m back from it |
| Bpm.LogFileName | createBPM_Y5FixingVersion.py:240 | the log file's basename reads back to CCD m, whatever the log directory |
| Bpm.Append | createBPM_Y5FixingVersion.py:224-232 | each `cmds += ' --flag {0}'` step: a space and then the token; SplitAppend recovers the tokens |
| Bpm.Command | createBPM_Y5FixingVersion.py:224-232 | the command string, the mkbpm.py path followed by the appended flags and values; ArgvLayout gives its split |
| Bpm.Argv | createBPM_Y5FixingVersion.py:234 | `shlex.split(cmds)`, modelled as a split at single spaces; ArgvLayout gives its value and shows the two agree under ShlexSafe |
| Bpm.CcdJob | createBPM_Y5FixingVersion.py:196-234 | the job of one CCD: None exactly when fewer than two biases carry the CCD; otherwise tagged with the CCD, one bias fewer than selected, the selected flats without the first, and the objects selected for the CCD |
| Bpm.RunCcd | createBPM_Y5FixingVersion.py:196-234 | one pass of the CCD loop gives exactly the job CcdJob specifies for that CCD, or None where the fix raises |
| Bpm.MakeBpm | createBPM_Y5FixingVersion.py:187-234 | jobs are produced for the requested CCDs in order, each the CCD's selection, fix and command line; the run completes exactly when every CCD got a job, and otherwise stops with the index error at the next CCD |
| Bpm.Y5Job | createBPM_Y5FixingVersion.py:187-234 | with at least two precal rows and no CCD requested twice, the job for a requested CCD m holds the first night's bias followed by the biases of nights 2 onwards, the flats of nights 1 onwards, the objects on m, its argument vector and its log name |
| Bpm.OneObjectRowJob | createBPM_Y5FixingVersion.py:53-62 | with the tables read as row sequences, a one-row object table and two or more nights give every requested CCD a job, whose object list is the row's path exactly when the row is on that CCD |
| Bpm.Y5Fails | createBPM_Y5FixingVersion.py:196-199 | with no CCD requested twice and fewer than two precal rows, the fix raises at every CCD |
| Bpm.TwoNights | createBPM_Y5FixingVersion.py:194-202 | with two nights, each CCD's bias list is the first night's bias alone and its flat list is the second night's flat alone |
| Bpm.PathsForDecode | createBPM_Y5FixingVersion.py:107-130 | when the band holds no '_' or '/', every path selected for CCD m decodes to its precal row's night, request and attempt, and to m |
| Bpm.Y5Sources | createBPM_Y5FixingVersion.py:194-202 | after the fix, bias 0 is night 0's path, bias i (i >= 1) is night i+1's, and flat i is night i+1's: night 1 is paired with night 0's bias, and every later night with its own |

## Left out

- Table loading with `np.loadtxt` (lines 53-62): parsing the text is not modelled, and the model takes the tables as sequences of rows. Loaded with the default `ndmin=0`, a one-row table becomes a 0-d record. feed_list then raises at line 103 for a one-row precal table, and at lines 135-136 for a one-row object table, before any CCD is processed. `FeedAsLoaded` models this, and `FeedList`, `MakeBpm` and the lemmas about them model the tables as `ndmin=1` would load them (see Findings).
- The `i4` columns are 32-bit: `expnum`, `ccdnum`, `reqnum`, `unitname` and `attnum` of the tables (lines 38-52), and the `ccdnum` of the three lists (line 138). The model's integers are unbounded and assume every value fits; it does not model what numpy does with one that does not.
- numpy's fixed-width string columns (`|S10`, `|S50`, `|S100`, and `|S200` for the lists) silently truncate longer values. The model assumes every value fits.
- Creating the output and log directories, and the uuid fallback names (lines 148-181). `MakeBpm` takes `dir_out`, `dir_log` and the uuid as parameters; the PID and the label enter only through the two directory names. As written, the log fallback name uses the `out_` prefix (line 172), and neither fallback directory is created.
- The module-global `label` is set only under `__main__`. It feeds only the directory names, which are parameters here. Called from anywhere else, `make_bpm` raises NameError at line 152, after `feed_list` has run; that is not modelled.
- `progress_bar` (lines 80-93, called at line 189) writes only to the terminal and sleeps.
- Writing the temporary lists with `np.savetxt` (lines 216-222), running `mkbpm.py` with `subprocess.Popen` and capturing its log (lines 240-249), and removing the temporaries (lines 252-255). A `Job` records what they would receive.
- Bpm.Argv, Bpm.ArgvLayout, Bpm.ArgvCcd: `shlex.split` is modelled as a split at single spaces. The layout is proved only under `ShlexSafe`: the bin directory, badpix directory, both list names, output directory and uid hold no space, tab, newline, carriage return, double or single quote or backslash, and both list names are non-empty. Without it `shlex.split` splits at the other whitespace too, drops empty tokens, interprets quotes and escapes, and raises `ValueError` on an unbalanced quote (for instance a label holding one `'`, which reaches `dir_out`). None of that is modelled.
- The command-line front end (lines 261-316). CCD numbers are modelled as ints, as in the default CCD list. Numbers given with `--ccd` arrive as strings, and nothing here models that.
- Logging calls.
- The Y5 fix as written is positional. For any number of precal rows of at least two, it copies bias 0 over bias 1 and drops element 0. It applies to whatever nights the table holds, not only the two consecutive nights the comment names, and it raises an index error when fewer than two biases carry the CCD, which with no CCD requested twice means fewer than two rows. The model follows the code: see `Y5Fix`, `Y5Job`, `Y5Fails` and `TwoNights`.
- Manifest.FileNameRoundTrip, Manifest.ProductPathNames, Bpm.PathsForDecode: these assume the band holds no '_' and no '/'. The decoder reads a name by splitting it at '_', so a band holding '_' shifts the fields, and a '/' in the band splits the name across path components. Injectivity (`FileNameInjective`) needs no such assumption. `FileNameIsPlain` and `ProductPathShape` need only a '/'-free band, and `ProductPathShape` and `ObjPathBasename` also assume plain path components, as their rows say.
- Bpm.Y5Job, Bpm.Y5Sources, Bpm.TwoNights, Bpm.Y5Fails, Bpm.ProductSelect, Bpm.CrossSelect, Bpm.OneObjectRowJob: these assume no CCD is requested twice (`NoDup`). With a repeated CCD each night appears once per repetition in that CCD's selection, so with one precal row the fix does not raise for it. That case is only covered by the general `MakeBpm`/`CcdJob` contract.

## Findings

| source | as written | input that shows it | evidently intended | confidence | as-written member | corrected member |
|---|---|---|---|---|---|---|
| createBPM_Y5FixingVersion.py:53-62 | `np.loadtxt` with the default `ndmin=0` squeezes a one-row table to a 0-d record; feed_list then fails on `self.precal.shape[0]` (line 103, IndexError) or on `for x in self.obj` (lines 135-136, TypeError) | an object table of one row and a precal table of two rows, for any requested CCDs | a one-row table is a table of one row (`ndmin=1`): every requested CCD gets its job, and the row's path goes to its own CCD | not executed | Manifest.FeedAsLoaded | Bpm.OneObjectRowJob |
