/**
 * `Listed.make_bpm` of createBPM_Y5FixingVersion.py, without its I/O:
 * for every requested CCD it selects that CCD's entries from the lists
 * `feed_list` built, applies the Y5 fix (the second night's bias is
 * replaced by the first night's, then the first night is dropped from
 * both the bias and the flat list), and builds the argument vector of the
 * `mkbpm.py` call. What the temporary files and the log would receive is
 * returned as one `Job` per CCD.
 */
module Bpm {

  import opened Format
  import opened PosixPath
  import opened Manifest

  // ---------------------------------------------------------------------
  // Per-CCD selection: `aux[aux['ccdnum'] == m]['path']`

  /** The paths of the entries tagged with CCD `m`, in list order. */
  function Select(entries: seq<Entry>, m: int): (r: seq<string>)
    ensures |r| <= |entries|
    decreases |entries|
  {
    if |entries| == 0 then []
    else
      var last := entries[|entries| - 1];
      Select(entries[..|entries| - 1], m) + (if last.ccdnum == m then [last.path] else [])
  }

  predicate NoDup(s: seq<int>) {
    forall i, j :: 0 <= i < j < |s| ==> s[i] != s[j]
  }

  /** `mk(precal[n], m).path` for every precal row, in table order. */
  function MkPaths(precal: seq<PrecalRow>, m: int, mk: (PrecalRow, int) -> Entry): seq<string> {
    seq(|precal|, n requires 0 <= n < |precal| => mk(precal[n], m).path)
  }

  /** The product paths of every precal row for CCD `m`, in table order. */
  function PathsFor(rootDir: string, p: Product, precal: seq<PrecalRow>, m: int): seq<string> {
    seq(|precal|, n requires 0 <= n < |precal| => ProductPath(rootDir, p, precal[n], m))
  }

  /** The object-table rows on CCD `m`, in table order. */
  function RowsOn(objs: seq<ObjRow>, m: int): (rows: seq<ObjRow>)
    ensures |rows| <= |objs|
    ensures forall i :: 0 <= i < |rows| ==> rows[i].ccdnum == m && rows[i] in objs
    decreases |objs|
  {
    if |objs| == 0 then []
    else
      var last := objs[|objs| - 1];
      RowsOn(objs[..|objs| - 1], m) + (if last.ccdnum == m then [last] else [])
  }

  function ObjPaths(rows: seq<ObjRow>): seq<string> {
    seq(|rows|, i requires 0 <= i < |rows| => ObjPath(rows[i]))
  }

  lemma {:induction false} SelectAppend(a: seq<Entry>, b: seq<Entry>, m: int)
    ensures Select(a + b, m) == Select(a, m) + Select(b, m)
    decreases |b|
  {
    if |b| > 0 {
      var init := b[..|b| - 1];
      assert (a + b)[..|a + b| - 1] == a + init;
      SelectAppend(a, init, m);
    } else {
      assert a + b == a;
    }
  }

  /** With no repeated CCD, a precal row contributes exactly one entry to CCD `m`'s selection if `m` was requested, none otherwise. */
  lemma {:induction false} RowSelect(row: PrecalRow, ccds: seq<int>, mk: (PrecalRow, int) -> Entry, m: int)
    requires NoDup(ccds)
    requires forall r, c :: mk(r, c).ccdnum == c
    ensures Select(RowEntries(row, ccds, mk), m) == if m in ccds then [mk(row, m).path] else []
    decreases |ccds|
  {
    if |ccds| > 0 {
      var init, last := ccds[..|ccds| - 1], ccds[|ccds| - 1];
      NoDupSnoc(ccds);
      RowSelect(row, init, mk, m);
      var e := mk(row, last);
      SelectAppend(RowEntries(row, init, mk), [e], m);
      assert Select([e], m) == if last == m then [e.path] else [] by {
        assert [e][..0] == [];
      }
    }
  }

  /** Dropping the last CCD keeps the list repetition-free, and the last CCD is not among the others. */
  lemma NoDupSnoc(ccds: seq<int>)
    requires NoDup(ccds) && |ccds| > 0
    ensures var init, last := ccds[..|ccds| - 1], ccds[|ccds| - 1];
      NoDup(init) && last !in init && forall m :: m in ccds <==> m in init || m == last
  {
    var init, last := ccds[..|ccds| - 1], ccds[|ccds| - 1];
    assert ccds == init + [last];
    forall k | 0 <= k < |init| ensures init[k] != last {
      assert init[k] == ccds[k];
    }
  }

  lemma MkPathsSnoc(precal: seq<PrecalRow>, m: int, mk: (PrecalRow, int) -> Entry)
    requires |precal| > 0
    ensures MkPaths(precal, m, mk)
            == MkPaths(precal[..|precal| - 1], m, mk) + [mk(precal[|precal| - 1], m).path]
  {
  }

  lemma {:induction false} CrossSelect(precal: seq<PrecalRow>, ccds: seq<int>, mk: (PrecalRow, int) -> Entry, m: int)
    requires NoDup(ccds)
    requires forall r, c :: mk(r, c).ccdnum == c
    ensures Select(Cross(precal, ccds, mk), m) == if m in ccds then MkPaths(precal, m, mk) else []
    decreases |precal|
  {
    if |precal| > 0 {
      var init, last := precal[..|precal| - 1], precal[|precal| - 1];
      CrossSelect(init, ccds, mk, m);
      RowSelect(last, ccds, mk, m);
      SelectAppend(Cross(init, ccds, mk), RowEntries(last, ccds, mk), m);
      MkPathsSnoc(precal, m, mk);
    }
  }

  /**
   * Selecting CCD `m` from a feed_list product list (no CCD requested
   * twice) gives one path per precal row, in file order, each the
   * product path of that row for `m`; nothing when `m` was not requested.
   */
  lemma ProductSelect(rootDir: string, p: Product, precal: seq<PrecalRow>, ccds: seq<int>, m: int)
    requires NoDup(ccds)
    ensures Select(ProductList(rootDir, p, precal, ccds), m)
            == if m in ccds then PathsFor(rootDir, p, precal, m) else []
  {
    var mk := EntryMaker(rootDir, p);
    forall r, c ensures mk(r, c).ccdnum == c {
      MakerEntry(rootDir, p, r, c);
    }
    CrossSelect(precal, ccds, mk, m);
    forall n | 0 <= n < |precal| ensures MkPaths(precal, m, mk)[n] == PathsFor(rootDir, p, precal, m)[n] {
      MakerEntry(rootDir, p, precal[n], m);
    }
  }

  lemma ObjListSnoc(objs: seq<ObjRow>)
    requires |objs| > 0
    ensures var last := objs[|objs| - 1];
      ObjList(objs) == ObjList(objs[..|objs| - 1]) + [Entry(ObjPath(last), last.ccdnum)]
  {
  }

  lemma ObjPathsSnoc(rows: seq<ObjRow>, row: ObjRow)
    ensures ObjPaths(rows + [row]) == ObjPaths(rows) + [ObjPath(row)]
  {
  }

  /** Selecting CCD `m` from the object list keeps the paths of exactly the rows on `m`, in table order. */
  lemma {:induction false} ObjSelect(objs: seq<ObjRow>, m: int)
    ensures Select(ObjList(objs), m) == ObjPaths(RowsOn(objs, m))
    decreases |objs|
  {
    if |objs| > 0 {
      var init, last := objs[..|objs| - 1], objs[|objs| - 1];
      ObjSelect(init, m);
      ObjListSnoc(objs);
      SelectSnoc(ObjList(init), Entry(ObjPath(last), last.ccdnum), m);
      if last.ccdnum == m {
        ObjPathsSnoc(RowsOn(init, m), last);
      }
    }
  }

  /** Selecting after appending one entry. */
  lemma SelectSnoc(front: seq<Entry>, e: Entry, m: int)
    ensures Select(front + [e], m) == Select(front, m) + (if e.ccdnum == m then [e.path] else [])
  {
    assert (front + [e])[..|front|] == front;
  }

  /** Every row of the object table on CCD `m` is kept by the selection. */
  lemma {:induction false} RowsOnComplete(objs: seq<ObjRow>, m: int, i: nat)
    requires i < |objs| && objs[i].ccdnum == m
    ensures objs[i] in RowsOn(objs, m)
    decreases |objs|
  {
    var init, last := objs[..|objs| - 1], objs[|objs| - 1];
    if i < |objs| - 1 {
      RowsOnComplete(init, m, i);
      assert objs[i] == init[i];
    }
  }

  // ---------------------------------------------------------------------
  // The Y5 fix

  /** The per-CCD bias and flat lists after the fix. */
  datatype Lists = Lists(bias: seq<string>, flat: seq<string>)

  /** Python's `s[1:]`: empty for an empty list. */
  function Tail(s: seq<string>): (r: seq<string>)
    ensures |s| > 0 ==> [s[0]] + r == s
    ensures |s| == 0 ==> r == []
  {
    if |s| == 0 then [] else s[1..]
  }

  /**
   * The fix as a value: undefined (the index error of `x_bias[1] =
   * x_bias[0]`) with fewer than two biases; otherwise the first bias
   * followed by the third onwards, and the flats without the first.
   */
  function Y5Fix(xBias: seq<string>, xFlat: seq<string>): (r: Option<Lists>)
    ensures r.None? <==> |xBias| < 2
    ensures r.Some? ==> |r.value.bias| == |xBias| - 1 && r.value.flat == Tail(xFlat)
  {
    if |xBias| < 2 then None else Some(Lists([xBias[0]] + xBias[2..], Tail(xFlat)))
  }

  /**
   * Lines 196-202: copy both selections, overwrite bias 1 with bias 0,
   * then drop element 0 of both copies.
   */
  method ApplyY5Fix(xBias: seq<string>, xFlat: seq<string>) returns (r: Option<Lists>)
    ensures r == Y5Fix(xBias, xFlat)
    ensures r.Some? ==> r.value.bias[0] == xBias[0] && r.value.bias[1..] == xBias[2..]
  {
    var flat := new string[|xFlat|](i requires 0 <= i < |xFlat| => xFlat[i]);
    var bias := new string[|xBias|](i requires 0 <= i < |xBias| => xBias[i]);
    assert flat[..] == xFlat;
    if bias.Length < 2 {
      return None;
    }
    bias[1] := bias[0];
    assert bias[1..] == [xBias[0]] + xBias[2..];
    var flatTail := if flat.Length == 0 then [] else flat[1..];
    r := Some(Lists(bias[1..], flatTail));
  }

  // ---------------------------------------------------------------------
  // The mkbpm command line

  /** `'{0}/bpm_c{1:02}.fits'.format(dir_out, m)`. */
  function OutFile(dirOut: string, m: int): string {
    dirOut + "/bpm_c" + Pad2(m) + ".fits"
  }

  /** `'{0}/log.bpm_c{1:02}'.format(dir_log, m)`. */
  function LogFile(dirLog: string, m: int): string {
    dirLog + "/log.bpm_c" + Pad2(m)
  }

  /**
   * The tokens the eight `cmds += ' --flag {0}'.format(value)` lines
   * append, each line contributing its flag and then its value.
   */
  function Tokens(outfile: string, ccdnum: string, biascor: string, flatcor: string,
                  images: string, badpix: string, funkycol: string): seq<string>
  {
    ["--outfile", outfile, "--ccdnum", ccdnum, "--biascor", biascor, "--flatcor", flatcor,
     "--images", images, "--badpix", badpix, "--funkycol", funkycol, "--verbose", "3"]
  }

  /** The values lines 225-231 format into the command, for CCD `m`. */
  function Options(l: Listed, dirOut: string, uid: string, m: int): seq<string> {
    Tokens(OutFile(dirOut, m), IntToString(m),
           uid + ".biascor.csv", uid + ".flatcor.csv", uid + ".object.csv",
           Join(l.badpix, [l.defBadpix]), Join(l.badpix, [l.defFunky]))
  }

  /** Appending `' ' + token` for each token in turn. */
  function Append(cmd: string, tokens: seq<string>): string
    decreases |tokens|
  {
    if |tokens| == 0 then cmd
    else Append(cmd + " " + tokens[0], tokens[1..])
  }

  /** The command string of lines 224-232. */
  function Command(l: Listed, dirOut: string, uid: string, m: int): string {
    Append(Join(l.bindir, ["mkbpm.py"]), Options(l, dirOut, uid, m))
  }

  /**
   * `shlex.split(cmds)`, modelled as a split at each single space; the two
   * agree under ShlexSafe (ArgvLayout).
   */
  function Argv(l: Listed, dirOut: string, uid: string, m: int): seq<string> {
    Split(Command(l, dirOut, uid, m), ' ')
  }

  lemma {:induction false} SplitAppend(cmd: string, tokens: seq<string>)
    requires forall i :: 0 <= i < |tokens| ==> ' ' !in tokens[i]
    ensures Split(Append(cmd, tokens), ' ') == Split(cmd, ' ') + tokens
    decreases |tokens|
  {
    if |tokens| > 0 {
      var next := cmd + " " + tokens[0];
      assert next == cmd + [' '] + tokens[0];
      SplitAppend(next, tokens[1..]);
      SplitConcat(cmd, ' ', tokens[0]);
      SplitNone(tokens[0], ' ');
      assert [tokens[0]] + tokens[1..] == tokens;
    }
  }

  /**
   * The characters `shlex.split` (POSIX mode, as called at line 234) does
   * not read as word characters: its whitespace, its two quotes and its
   * escape.
   */
  predicate ShlexSpecial(c: char) {
    c == ' ' || c == '\t' || c == '\n' || c == '\r' || c == '"' || c == '\'' || c == '\\'
  }

  /** None of shlex's special characters occurs in `s`. */
  predicate Unspecial(s: string) {
    ' ' !in s && '\t' !in s && '\n' !in s && '\r' !in s && '"' !in s && '\'' !in s && '\\' !in s
  }

  /** A token `shlex.split` reads back as exactly itself, and does not drop. */
  predicate ShlexWord(s: string) {
    |s| > 0 && Unspecial(s)
  }

  /**
   * When splitting the command at single spaces is what `shlex.split`
   * does to it: the directories, list names and uid formatted into it hold
   * none of shlex's special characters, and the two badpix list names are
   * non-empty, so that no value is an empty token.
   */
  predicate ShlexSafe(l: Listed, dirOut: string, uid: string) {
    Unspecial(l.bindir) && Unspecial(l.badpix) && Unspecial(l.defBadpix) && Unspecial(l.defFunky)
    && Unspecial(dirOut) && Unspecial(uid) && |l.defBadpix| > 0 && |l.defFunky| > 0
  }

  /**
   * The literal parts of the command hold none of shlex's special
   * characters. The literals are checked in small groups (the lemmas
   * below) only to keep each proof cheap for the solver.
   */
  lemma LiteralsHaveNo(c: char)
    requires ShlexSpecial(c)
    ensures c !in "--outfile" && c !in "--ccdnum" && c !in "--biascor" && c !in "--flatcor"
    ensures c !in "--images" && c !in "--badpix" && c !in "--funkycol" && c !in "--verbose"
    ensures c !in "3" && c !in ".biascor.csv" && c !in ".flatcor.csv" && c !in ".object.csv"
    ensures c !in "/bpm_c" && c !in ".fits" && c !in "mkbpm.py"
  {
    FlagsHaveNo(c);
    ListNamesHaveNo(c);
  }

  lemma FlagsHaveNo(c: char)
    requires ShlexSpecial(c)
    ensures c !in "--outfile" && c !in "--ccdnum" && c !in "--biascor" && c !in "--flatcor"
    ensures c !in "--images" && c !in "--badpix" && c !in "--funkycol" && c !in "--verbose"
  {
    LaterFlagsHaveNo(c);
  }

  lemma LaterFlagsHaveNo(c: char)
    requires ShlexSpecial(c)
    ensures c !in "--images" && c !in "--badpix" && c !in "--funkycol" && c !in "--verbose"
  {
  }

  lemma ListNamesHaveNo(c: char)
    requires ShlexSpecial(c)
    ensures c !in "3" && c !in ".biascor.csv" && c !in ".flatcor.csv" && c !in ".object.csv"
    ensures c !in "/bpm_c" && c !in ".fits" && c !in "mkbpm.py"
  {
    SuffixesHaveNo(c);
  }

  lemma SuffixesHaveNo(c: char)
    requires ShlexSpecial(c)
    ensures c !in ".biascor.csv" && c !in ".flatcor.csv" && c !in ".object.csv"
  {
  }

  /** A special character reaches a value of the command only through the directories, list names or uid. */
  lemma ValuesHaveNo(l: Listed, dirOut: string, uid: string, m: int, c: char)
    requires ShlexSpecial(c)
    requires c !in l.bindir && c !in l.badpix && c !in l.defBadpix && c !in l.defFunky
    requires c !in dirOut && c !in uid
    ensures c !in Join(l.bindir, ["mkbpm.py"]) && c !in OutFile(dirOut, m) && c !in IntToString(m)
    ensures c !in uid + ".biascor.csv" && c !in uid + ".flatcor.csv" && c !in uid + ".object.csv"
    ensures c !in Join(l.badpix, [l.defBadpix]) && c !in Join(l.badpix, [l.defFunky])
  {
    LiteralsHaveNo(c);
    IntToStringHasNo(m, c);
    Pad2HasNo(m, c);
    JoinHasNo(l.bindir, ["mkbpm.py"], c);
    JoinHasNo(l.badpix, [l.defBadpix], c);
    JoinHasNo(l.badpix, [l.defFunky], c);
  }

  /** Under ShlexSafe, the program path and every option value are shlex words. */
  lemma ValuesAreWords(l: Listed, dirOut: string, uid: string, m: int)
    requires ShlexSafe(l, dirOut, uid)
    ensures ShlexWord(Join(l.bindir, ["mkbpm.py"])) && ShlexWord(OutFile(dirOut, m)) && ShlexWord(IntToString(m))
    ensures ShlexWord(uid + ".biascor.csv") && ShlexWord(uid + ".flatcor.csv") && ShlexWord(uid + ".object.csv")
    ensures ShlexWord(Join(l.badpix, [l.defBadpix])) && ShlexWord(Join(l.badpix, [l.defFunky]))
  {
    ValuesHaveNo(l, dirOut, uid, m, ' ');
    ValuesHaveNo(l, dirOut, uid, m, '\t');
    ValuesHaveNo(l, dirOut, uid, m, '\n');
    ValuesHaveNo(l, dirOut, uid, m, '\r');
    ValuesHaveNo(l, dirOut, uid, m, '"');
    ValuesHaveNo(l, dirOut, uid, m, '\'');
    ValuesHaveNo(l, dirOut, uid, m, '\\');
  }

  lemma TokensSpaceFree(outfile: string, ccdnum: string, biascor: string, flatcor: string,
                        images: string, badpix: string, funkycol: string)
    requires ' ' !in outfile && ' ' !in ccdnum && ' ' !in biascor
    requires ' ' !in flatcor && ' ' !in images && ' ' !in badpix && ' ' !in funkycol
    ensures var t := Tokens(outfile, ccdnum, biascor, flatcor, images, badpix, funkycol);
      forall i :: 0 <= i < |t| ==> ' ' !in t[i]
  {
    LiteralsHaveNo(' ');
  }

  /**
   * The argument vector handed to subprocess for CCD `m`: the mkbpm.py
   * path, then the eight flags with their values, in source order; every
   * token is a shlex word, so this is what `shlex.split` returns.
   */
  lemma ArgvLayout(l: Listed, dirOut: string, uid: string, m: int)
    requires ShlexSafe(l, dirOut, uid)
    ensures Argv(l, dirOut, uid, m) ==
      [Join(l.bindir, ["mkbpm.py"]),
       "--outfile", OutFile(dirOut, m),
       "--ccdnum", IntToString(m),
       "--biascor", uid + ".biascor.csv",
       "--flatcor", uid + ".flatcor.csv",
       "--images", uid + ".object.csv",
       "--badpix", Join(l.badpix, [l.defBadpix]),
       "--funkycol", Join(l.badpix, [l.defFunky]),
       "--verbose", "3"]
    ensures var argv := Argv(l, dirOut, uid, m);
      forall i :: 0 <= i < |argv| ==> ShlexWord(argv[i])
  {
    var exe, out, ccd := Join(l.bindir, ["mkbpm.py"]), OutFile(dirOut, m), IntToString(m);
    var b, f, o := uid + ".biascor.csv", uid + ".flatcor.csv", uid + ".object.csv";
    var bp, fk := Join(l.badpix, [l.defBadpix]), Join(l.badpix, [l.defFunky]);
    assert Argv(l, dirOut, uid, m) == Split(Append(exe, Tokens(out, ccd, b, f, o, bp, fk)), ' ');
    ValuesAreWords(l, dirOut, uid, m);
    SplitTokens(exe, out, ccd, b, f, o, bp, fk);
    TokensAreWords(exe, out, ccd, b, f, o, bp, fk);
  }

  /** The flags and the verbosity are shlex words, so the whole vector is when the values are. */
  lemma TokensAreWords(exe: string, outfile: string, ccdnum: string, biascor: string, flatcor: string,
                       images: string, badpix: string, funkycol: string)
    requires ShlexWord(exe) && ShlexWord(outfile) && ShlexWord(ccdnum) && ShlexWord(biascor)
    requires ShlexWord(flatcor) && ShlexWord(images) && ShlexWord(badpix) && ShlexWord(funkycol)
    ensures var argv := [exe, "--outfile", outfile, "--ccdnum", ccdnum, "--biascor", biascor, "--flatcor", flatcor,
                         "--images", images, "--badpix", badpix, "--funkycol", funkycol, "--verbose", "3"];
      forall i :: 0 <= i < |argv| ==> ShlexWord(argv[i])
  {
    LiteralsHaveNo(' ');
    LiteralsHaveNo('\t');
    LiteralsHaveNo('\n');
    LiteralsHaveNo('\r');
    LiteralsHaveNo('"');
    LiteralsHaveNo('\'');
    LiteralsHaveNo('\\');
  }

  /** Splitting the appended command line at spaces gives back the program and its tokens. */
  lemma SplitTokens(exe: string, outfile: string, ccdnum: string, biascor: string, flatcor: string,
                    images: string, badpix: string, funkycol: string)
    requires ' ' !in exe && ' ' !in outfile && ' ' !in ccdnum && ' ' !in biascor
    requires ' ' !in flatcor && ' ' !in images && ' ' !in badpix && ' ' !in funkycol
    ensures Split(Append(exe, Tokens(outfile, ccdnum, biascor, flatcor, images, badpix, funkycol)), ' ')
         == [exe, "--outfile", outfile, "--ccdnum", ccdnum, "--biascor", biascor, "--flatcor", flatcor,
             "--images", images, "--badpix", badpix, "--funkycol", funkycol, "--verbose", "3"]
  {
    var tokens := Tokens(outfile, ccdnum, biascor, flatcor, images, badpix, funkycol);
    TokensSpaceFree(outfile, ccdnum, biascor, flatcor, images, badpix, funkycol);
    SplitNone(exe, ' ');
    SplitAppend(exe, tokens);
    TokensAfter(exe, outfile, ccdnum, biascor, flatcor, images, badpix, funkycol);
  }

  lemma TokensAfter(exe: string, outfile: string, ccdnum: string, biascor: string, flatcor: string,
                    images: string, badpix: string, funkycol: string)
    ensures [exe] + Tokens(outfile, ccdnum, biascor, flatcor, images, badpix, funkycol)
         == [exe, "--outfile", outfile, "--ccdnum", ccdnum, "--biascor", biascor, "--flatcor", flatcor,
             "--images", images, "--badpix", badpix, "--funkycol", funkycol, "--verbose", "3"]
  {
  }

  /** The name mkbpm writes its mask to: `bpm_c<cc>.fits`. */
  function BpmName(m: int): string {
    "bpm_c" + Pad2(m) + ".fits"
  }

  /** Reads the CCD back from a mask name. */
  function ParseBpmName(name: string): Option<int> {
    if |name| < 10 || name[..5] != "bpm_c" || name[|name| - 5..] != ".fits" then None
    else ParseInt(name[5..|name| - 5])
  }

  lemma BpmNameRoundTrip(m: int)
    ensures ParseBpmName(BpmName(m)) == Some(m)
  {
    var name := BpmName(m);
    assert name[..5] == "bpm_c" && name[|name| - 5..] == ".fits";
    assert name[5..|name| - 5] == Pad2(m);
    Pad2RoundTrip(m);
  }

  /** The mask lands in the output directory under its own name. */
  lemma OutFileName(dirOut: string, m: int)
    ensures ParseBpmName(Basename(OutFile(dirOut, m))) == Some(m)
  {
    Pad2HasNo(m, '/');
    assert OutFile(dirOut, m) == (dirOut + "/") + BpmName(m);
    BasenameAfterSep(dirOut + "/", BpmName(m));
    BpmNameRoundTrip(m);
  }

  /** Reads the CCD back from a log name `log.bpm_c<cc>`. */
  function ParseLogName(name: string): Option<int> {
    if |name| < 9 || name[..9] != "log.bpm_c" then None else ParseInt(name[9..])
  }

  /** Each CCD's log lands in the log directory under a name that reads back to the CCD. */
  lemma LogFileName(dirLog: string, m: int)
    ensures ParseLogName(Basename(LogFile(dirLog, m))) == Some(m)
  {
    var name := "log.bpm_c" + Pad2(m);
    Pad2HasNo(m, '/');
    assert LogFile(dirLog, m) == (dirLog + "/") + name;
    BasenameAfterSep(dirLog + "/", name);
    assert name[..9] == "log.bpm_c" && name[9..] == Pad2(m);
    Pad2RoundTrip(m);
  }

  /**
   * mkbpm receives CCD `m` twice, consistently: as the `--ccdnum` value,
   * and in the name of the `--outfile` mask, whatever the output directory.
   */
  lemma ArgvCcd(l: Listed, dirOut: string, uid: string, m: int)
    requires ShlexSafe(l, dirOut, uid)
    ensures var argv := Argv(l, dirOut, uid, m);
      |argv| == 17 && argv[3] == "--ccdnum" && ParseInt(argv[4]) == Some(m)
      && argv[1] == "--outfile" && ParseBpmName(Basename(argv[2])) == Some(m)
  {
    ArgvLayout(l, dirOut, uid, m);
    ArgvAt(Argv(l, dirOut, uid, m), Join(l.bindir, ["mkbpm.py"]), OutFile(dirOut, m), IntToString(m),
           uid + ".biascor.csv", uid + ".flatcor.csv", uid + ".object.csv",
           Join(l.badpix, [l.defBadpix]), Join(l.badpix, [l.defFunky]));
    IntRoundTrip(m);
    OutFileName(dirOut, m);
  }

  lemma ArgvAt(argv: seq<string>, exe: string, outfile: string, ccdnum: string, biascor: string,
               flatcor: string, images: string, badpix: string, funkycol: string)
    requires argv == [exe, "--outfile", outfile, "--ccdnum", ccdnum, "--biascor", biascor, "--flatcor", flatcor,
                      "--images", images, "--badpix", badpix, "--funkycol", funkycol, "--verbose", "3"]
    ensures |argv| == 17 && argv[1] == "--outfile" && argv[2] == outfile
    ensures argv[3] == "--ccdnum" && argv[4] == ccdnum
  {
  }

  // ---------------------------------------------------------------------
  // The CCD loop of make_bpm

  /**
   * What one pass of the CCD loop hands to mkbpm: the contents of the
   * three temporary list files, the argument vector and the log file.
   */
  datatype Job = Job(ccd: int, bias: seq<string>, flat: seq<string>, objects: seq<string>,
                     argv: seq<string>, log: string)

  /** How the loop ends: every CCD processed, or the index error of the Y5 fix at one CCD. */
  datatype Outcome = Done | IndexError(ccd: int)

  /**
   * The job for CCD `m`, or None where the Y5 fix raises: exactly when
   * fewer than two biases are tagged `m`.
   */
  function CcdJob(l: Listed, uid: string, dirOut: string, dirLog: string, feed: Feed, m: int): (r: Option<Job>)
    ensures r.None? <==> |Select(feed.bias, m)| < 2
    ensures r.Some? ==> r.value.ccd == m && r.value.objects == Select(feed.obj, m)
    ensures r.Some? ==> |r.value.bias| == |Select(feed.bias, m)| - 1 && r.value.flat == Tail(Select(feed.flat, m))
  {
    match Y5Fix(Select(feed.bias, m), Select(feed.flat, m))
    case None => None
    case Some(lists) =>
      Some(Job(m, lists.bias, lists.flat, Select(feed.obj, m), Argv(l, dirOut, uid, m), LogFile(dirLog, m)))
  }

  /**
   * One pass of the CCD loop for CCD `m`: the selections, the Y5 fix
   * (None where it raises), and the command line and log name.
   */
  method RunCcd(l: Listed, uid: string, dirOut: string, dirLog: string,
                biasAux: seq<Entry>, flatAux: seq<Entry>, objAux: seq<Entry>, m: int)
    returns (r: Option<Job>)
    ensures r == CcdJob(l, uid, dirOut, dirLog, Feed(biasAux, flatAux, objAux), m)
  {
    var xFlat := Select(flatAux, m);
    var xBias := Select(biasAux, m);
    var fixed := ApplyY5Fix(xBias, xFlat);
    if fixed.None? {
      return None;
    }
    var objects := Select(objAux, m);
    var argv := Argv(l, dirOut, uid, m);
    r := Some(Job(m, fixed.value.bias, fixed.value.flat, objects, argv, LogFile(dirLog, m)));
  }

  /**
   * make_bpm: feed_list once, then for each requested CCD in order the
   * selection, the Y5 fix and the command line. The run stops at the
   * first CCD whose fix raises; the jobs before it have been run.
   */
  method MakeBpm(l: Listed, uid: string, dirOut: string, dirLog: string) returns (jobs: seq<Job>, outcome: Outcome)
    ensures |jobs| <= |l.ccd|
    ensures forall i :: 0 <= i < |jobs| ==> CcdJob(l, uid, dirOut, dirLog, FeedOf(l), l.ccd[i]) == Some(jobs[i])
    ensures outcome.Done? <==> |jobs| == |l.ccd|
    ensures outcome.IndexError? ==>
      outcome.ccd == l.ccd[|jobs|] && CcdJob(l, uid, dirOut, dirLog, FeedOf(l), outcome.ccd).None?
  {
    var biasAux, flatAux, objAux := FeedList(l);
    ghost var feed := Feed(biasAux, flatAux, objAux);
    assert feed == FeedOf(l);
    ghost var spec := seq(|l.ccd|, k requires 0 <= k < |l.ccd| => CcdJob(l, uid, dirOut, dirLog, feed, l.ccd[k]));
    jobs := [];
    var i := 0;
    while i < |l.ccd|
      invariant 0 <= i <= |l.ccd| && |jobs| == i
      invariant forall k :: 0 <= k < i ==> spec[k] == Some(jobs[k])
    {
      var r := RunCcd(l, uid, dirOut, dirLog, biasAux, flatAux, objAux, l.ccd[i]);
      assert spec[i] == r;
      if r.None? {
        return jobs, IndexError(l.ccd[i]);
      }
      forall k | 0 <= k < i + 1 ensures spec[k] == Some((jobs + [r.value])[k]) {
        if k < i {
          assert (jobs + [r.value])[k] == jobs[k];
        }
      }
      jobs := jobs + [r.value];
      i := i + 1;
    }
    outcome := Done;
  }

  // ---------------------------------------------------------------------
  // What the Y5 fix does to the nights

  /**
   * With no CCD requested twice, the job for a requested CCD `m` is the
   * Y5 fix applied to the full per-night lists for `m`: the first night's
   * bias followed by the biases of nights 2 onwards, the flats of nights 1
   * onwards, and the objects on `m`. It exists exactly when there are at
   * least two nights.
   */
  lemma Y5Job(l: Listed, uid: string, dirOut: string, dirLog: string, m: int)
    requires NoDup(l.ccd) && m in l.ccd && |l.precal| >= 2
    ensures var bias, flat := PathsFor(l.rootDir, Biascor, l.precal, m), PathsFor(l.rootDir, Flatcor(l.band), l.precal, m);
      CcdJob(l, uid, dirOut, dirLog, FeedOf(l), m)
      == Some(Job(m, [bias[0]] + bias[2..], flat[1..], ObjPaths(RowsOn(l.obj, m)),
                  Argv(l, dirOut, uid, m), LogFile(dirLog, m)))
  {
    ProductSelect(l.rootDir, Biascor, l.precal, l.ccd, m);
    ProductSelect(l.rootDir, Flatcor(l.band), l.precal, l.ccd, m);
    ObjSelect(l.obj, m);
  }

  /**
   * A one-row object table, read as the row sequence it is: with two or
   * more nights every requested CCD gets its job, and its object list is
   * the row's path exactly when the row is on that CCD. feed_list as
   * written raises on this table instead (FeedAsLoaded).
   */
  lemma OneObjectRowJob(l: Listed, uid: string, dirOut: string, dirLog: string, m: int)
    requires NoDup(l.ccd) && m in l.ccd && |l.precal| >= 2 && |l.obj| == 1
    ensures var job := CcdJob(l, uid, dirOut, dirLog, FeedOf(l), m);
      job.Some? && job.value.objects == (if l.obj[0].ccdnum == m then [ObjPath(l.obj[0])] else [])
  {
    ProductSelect(l.rootDir, Biascor, l.precal, l.ccd, m);
    ObjSelect(l.obj, m);
    assert l.obj[..0] == [];
  }

  /** With fewer than two precal rows the fix raises at every requested CCD. */
  lemma Y5Fails(l: Listed, uid: string, dirOut: string, dirLog: string, m: int)
    requires NoDup(l.ccd) && |l.precal| < 2
    ensures CcdJob(l, uid, dirOut, dirLog, FeedOf(l), m).None?
  {
    ProductSelect(l.rootDir, Biascor, l.precal, l.ccd, m);
  }

  /** Every path selected for CCD `m` names its precal row's night, request and attempt, and `m`. */
  lemma PathsForDecode(rootDir: string, p: Product, precal: seq<PrecalRow>, m: int, n: nat)
    requires PlainBand(p) && n < |precal|
    ensures var r := precal[n];
      DecodeFileName(p, Basename(PathsFor(rootDir, p, precal, m)[n]))
      == Some(NameFields(r.unitname, m, r.reqnum, r.attnum))
  {
    ProductPathNames(rootDir, p, precal[n], m);
  }

  /**
   * The nights behind the job for CCD `m`, where path n of a list is night
   * n's (PathsForDecode): bias 0 is night 0's, and bias i (i >= 1) and
   * flat i are both night i + 1's. So night 1 is processed with night 0's
   * bias, and every later night with its own.
   */
  lemma Y5Sources(l: Listed, uid: string, dirOut: string, dirLog: string, m: int, job: Job)
    requires NoDup(l.ccd) && m in l.ccd && |l.precal| >= 2
    requires CcdJob(l, uid, dirOut, dirLog, FeedOf(l), m) == Some(job)
    ensures var bias, flat := PathsFor(l.rootDir, Biascor, l.precal, m), PathsFor(l.rootDir, Flatcor(l.band), l.precal, m);
      && |job.bias| == |job.flat| == |l.precal| - 1
      && job.bias[0] == bias[0]
      && (forall i :: 1 <= i < |job.bias| ==> job.bias[i] == bias[i + 1])
      && (forall i :: 0 <= i < |job.flat| ==> job.flat[i] == flat[i + 1])
  {
    Y5Job(l, uid, dirOut, dirLog, m);
    FixedAt(PathsFor(l.rootDir, Biascor, l.precal, m), PathsFor(l.rootDir, Flatcor(l.band), l.precal, m),
            job.bias, job.flat);
  }

  /** Position by position, what the fix keeps of two equally long lists. */
  lemma FixedAt(allBias: seq<string>, allFlat: seq<string>, bias: seq<string>, flat: seq<string>)
    requires |allBias| == |allFlat| >= 2
    requires bias == [allBias[0]] + allBias[2..] && flat == allFlat[1..]
    ensures |bias| == |flat| == |allBias| - 1 && bias[0] == allBias[0]
    ensures forall i :: 1 <= i < |bias| ==> bias[i] == allBias[i + 1]
    ensures forall i :: 0 <= i < |flat| ==> flat[i] == allFlat[i + 1]
  {
  }

  /**
   * The case the fix was written for, two consecutive nights: each CCD's
   * job gets the first night's bias alone and the second night's flat alone.
   */
  lemma TwoNights(l: Listed, uid: string, dirOut: string, dirLog: string, m: int, job: Job)
    requires NoDup(l.ccd) && m in l.ccd && |l.precal| == 2
    requires CcdJob(l, uid, dirOut, dirLog, FeedOf(l), m) == Some(job)
    ensures job.bias == [ProductPath(l.rootDir, Biascor, l.precal[0], m)]
    ensures job.flat == [ProductPath(l.rootDir, Flatcor(l.band), l.precal[1], m)]
  {
    Y5Job(l, uid, dirOut, dirLog, m);
    var bias, flat := PathsFor(l.rootDir, Biascor, l.precal, m), PathsFor(l.rootDir, Flatcor(l.band), l.precal, m);
    FixedTwo(bias, flat, job.bias, job.flat);
  }

  lemma FixedTwo(allBias: seq<string>, allFlat: seq<string>, bias: seq<string>, flat: seq<string>)
    requires |allBias| == |allFlat| == 2
    requires bias == [allBias[0]] + allBias[2..] && flat == allFlat[1..]
    ensures bias == [allBias[0]] && flat == [allFlat[1]]
  {
    assert allBias[2..] == [];
  }
}
