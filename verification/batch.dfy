/** The command-line driver, `CLI.run`: one `WoundImage` per image file of
    the input folder, then `save_all` for each into its own output
    directory, all appending to one shared ledger. The folder listing, the
    clock and the engines are parameters; the final "open the folder" call
    and the printing are not modelled. */
module Batch {
  import opened Outcomes
  import opened Strings
  import opened OsPath
  import opened Files
  import opened Engines
  import opened WoundGraph
  import opened Persistence
  import Memoisation

  // ---------------------------------------------------------------------
  // Which files, and where their artifacts go

  /** `file.endswith((".png", ".jpg", ".jpeg"))`: exact, case-sensitive. */
  predicate Listed(name: string) {
    EndsWith(name, ".png") || EndsWith(name, ".jpg") || EndsWith(name, ".jpeg")
  }

  /** The listed names, in listing order. */
  function Selected(names: seq<string>): (r: seq<string>)
    ensures |r| <= |names|
    ensures forall x | x in r :: Listed(x) && x in names
    ensures forall x | x in names && Listed(x) :: x in r
  {
    if |names| == 0 then []
    else (if Listed(names[0]) then [names[0]] else []) + Selected(names[1..])
  }

  /** The selection keeps the listing's order: selecting from a listing
      split in two is selecting from each part, in order. */
  lemma {:induction false} SelectedDistributes(a: seq<string>, b: seq<string>)
    ensures Selected(a + b) == Selected(a) + Selected(b)
    decreases |a|
  {
    if |a| > 0 {
      assert (a + b)[1..] == a[1..] + b;
      SelectedDistributes(a[1..], b);
    } else {
      assert a + b == b;
    }
  }

  /** `os.path.join(out, "wounds", basename(path).replace(".", "_"))`. */
  function OutputDir(out: string, path: string): string {
    Join(Join(out, "wounds"), ReplaceChar(BaseName(path), '.', '_'))
  }

  /** `"." + path.split(".")[-1]`. */
  function ExtensionOf(path: string): string {
    "." + LastField(path, '.')
  }

  /** `os.path.join(out, "csv", "pwat_data.csv")`: one ledger for the batch. */
  function LedgerPath(out: string): string {
    Join(Join(out, "csv"), "pwat_data.csv")
  }

  /** The last component of an output directory is the image's file name
      with every '.' turned into '_'. */
  lemma {:induction false} OutputDirName(out: string, path: string)
    ensures BaseName(OutputDir(out, path)) == ReplaceChar(BaseName(path), '.', '_')
    ensures '.' !in BaseName(OutputDir(out, path))
  {
    var b := ReplaceChar(BaseName(path), '.', '_');
    assert '/' !in b by {
      forall i | 0 <= i < |b|
        ensures b[i] != '/'
      {
        assert BaseName(path)[i] != '/';
      }
    }
    BaseNameOfJoin(Join(out, "wounds"), b);
  }

  /** Two image files whose names differ only in a '.' versus a '_' (such
      as "a.b.png" and "a_b.png") share one output directory, so the second
      overwrites the first one's artifacts. */
  lemma {:induction false} OutputDirsCollide(out: string, input: string, s: string, t: string)
    requires '/' !in s && '/' !in t
    ensures OutputDir(out, Join(input, s + "." + t)) == OutputDir(out, Join(input, s + "_" + t))
  {
    var a, b := s + "." + t, s + "_" + t;
    assert BaseName(Join(input, a)) == a by {
      NoSlashAround(s, '.', t);
      BaseNameOfJoin(input, a);
    }
    assert BaseName(Join(input, b)) == b by {
      NoSlashAround(s, '_', t);
      BaseNameOfJoin(input, b);
    }
    assert ReplaceChar(a, '.', '_') == ReplaceChar(b, '.', '_') by {
      DotOrUnderscore(s, t);
    }
  }

  lemma {:induction false} NoSlashAround(s: string, c: char, t: string)
    requires '/' !in s && '/' !in t && c != '/'
    ensures '/' !in s + [c] + t
  {
    var a := s + [c] + t;
    forall i | 0 <= i < |a|
      ensures a[i] != '/'
    {
      if i < |s| {
        assert a[i] == s[i];
      } else if i > |s| {
        assert a[i] == t[i - |s| - 1];
      }
    }
  }

  lemma {:induction false} DotOrUnderscore(s: string, t: string)
    ensures ReplaceChar(s + "." + t, '.', '_') == ReplaceChar(s + "_" + t, '.', '_')
  {
    var a, b := s + "." + t, s + "_" + t;
    var x, y := ReplaceChar(a, '.', '_'), ReplaceChar(b, '.', '_');
    forall i | 0 <= i < |a|
      ensures x[i] == y[i]
    {
      if i != |s| {
        assert a[i] == b[i];
      }
    }
  }

  lemma EndsWithTrans(s: string, t: string, u: string)
    requires EndsWith(s, t) && EndsWith(t, u)
    ensures EndsWith(s, u)
  {
    assert s[|s| - |u|..] == s[|s| - |t|..][|t| - |u|..];
  }

  /** A path ending in a name that ends in '.' and a dot-free extension
      gets that extension. */
  lemma ExtensionOfSuffix(p: string, name: string, ext: string)
    requires '.' !in ext && EndsWith(p, name) && EndsWith(name, "." + ext)
    ensures ExtensionOf(p) == "." + ext
  {
    EndsWithTrans(p, name, "." + ext);
    LastFieldOfSuffix(p, '.', ext);
  }

  lemma JoinEndsWith(dir: string, name: string)
    ensures EndsWith(Join(dir, name), name)
  {
  }

  /** A path ending in a listed name has the extension it was listed with,
      one `save_all` accepts. */
  lemma {:induction false} ListedSuffixAccepted(p: string, name: string)
    requires Listed(name) && EndsWith(p, name)
    ensures ExtensionOf(p) in SaveExtensions
  {
    if EndsWith(name, ".png") {
      assert ExtensionOf(p) == ".png" by {
        assert "." + "png" == ".png";
        ExtensionOfSuffix(p, name, "png");
      }
    } else if EndsWith(name, ".jpg") {
      assert ExtensionOf(p) == ".jpg" by {
        assert "." + "jpg" == ".jpg";
        ExtensionOfSuffix(p, name, "jpg");
      }
    } else {
      assert ExtensionOf(p) == ".jpeg" by {
        assert "." + "jpeg" == ".jpeg";
        ExtensionOfSuffix(p, name, "jpeg");
      }
    }
  }

  /** So every file the filter lets through passes `save_all`'s extension
      check. */
  lemma {:induction false} ListedExtensionAccepted(input: string, name: string)
    requires Listed(name)
    ensures ExtensionOf(Join(input, name)) in SaveExtensions
  {
    JoinEndsWith(input, name);
    ListedSuffixAccepted(Join(input, name), name);
  }

  /** The filter does not fold case: a name with an upper-case extension
      is skipped. */
  lemma UpperCaseSkipped(name: string)
    requires EndsWith(name, ".PNG") || EndsWith(name, ".JPG") || EndsWith(name, ".JPEG")
    ensures !Listed(name)
  {
    assert name[|name| - 1] == 'G';
  }

  // ---------------------------------------------------------------------
  // The run

  /** The list comprehension of `run`: every selected file is opened, in
      order, before anything is written; the first constructor that raises
      ends the comprehension. */
  function OpenAll(input: string, names: seq<string>, logging: bool, fs: FileSystem): (r: Result<seq<WoundImage>>)
    ensures r.Ok? <==> forall i | 0 <= i < |names| :: New(Join(input, names[i]), logging, fs).Ok?
    ensures r.Ok? ==> |r.value| == |names|
                      && forall i | 0 <= i < |names| :: New(Join(input, names[i]), logging, fs) == Ok(r.value[i])
    ensures r.Err? ==> exists i | 0 <= i < |names| :: New(Join(input, names[i]), logging, fs) == Err(r.error)
                                                      && forall j | 0 <= j < i :: New(Join(input, names[j]), logging, fs).Ok?
  {
    MapAll((name: string) => New(Join(input, name), logging, fs), names)
  }

  /** The ledger holds `before`, then one row per image of `paths[..n]`, in
      processing order, stamped by `clock`. */
  predicate Logged(rows: seq<seq<string>>, before: seq<seq<string>>, e: Toolkit, paths: seq<string>, clock: nat -> string, n: nat)
    requires n <= |paths|
  {
    && |rows| == |before| + n
    && rows[..|before|] == before
    && forall k | 0 <= k < n ::
         RefPredicted(e, paths[k]).Ok?
         && rows[|before| + k] == LedgerRow(e, paths[k], RefPredicted(e, paths[k]).value, clock(k))
  }

  lemma {:induction false} LoggedStep(rows: seq<seq<string>>, before: seq<seq<string>>, e: Toolkit, paths: seq<string>,
                                      clock: nat -> string, n: nat)
    requires n < |paths| && Logged(rows, before, e, paths, clock, n) && RefPredicted(e, paths[n]).Ok?
    ensures Logged(rows + [LedgerRow(e, paths[n], RefPredicted(e, paths[n]).value, clock(n))], before, e, paths, clock, n + 1)
  {
    var row := LedgerRow(e, paths[n], RefPredicted(e, paths[n]).value, clock(n));
    var rows2 := rows + [row];
    assert rows2[..|before|] == rows[..|before|];
    forall k | 0 <= k < n + 1
      ensures RefPredicted(e, paths[k]).Ok?
              && rows2[|before| + k] == LedgerRow(e, paths[k], RefPredicted(e, paths[k]).value, clock(k))
    {
      if k < n {
        assert rows2[|before| + k] == rows[|before| + k];
      }
    }
  }

  /** A journal that grows by a prefix-preserving step still extends its
      start. */
  lemma PrefixTrans(a: seq<Event>, b: seq<Event>, c: seq<Event>)
    requires a <= b
    requires |b| <= |c| && c[..|b|] == b
    ensures a <= c
  {
    assert c[..|a|] == b[..|a|];
  }

  /** The image paths `run` opens: the input folder joined with each
      selected name. */
  function InputPaths(input: string, names: seq<string>): (ps: seq<string>)
    ensures |ps| == |names|
    ensures forall i | 0 <= i < |names| :: ps[i] == Join(input, names[i])
  {
    seq(|names|, i requires 0 <= i < |names| => Join(input, names[i]))
  }

  /** Where `run` stands after its first `i` images were saved: the journal
      extends the one it started from, and the ledger holds one row per
      saved image after what it held before. */
  predicate Progress(e: Toolkit, fs: FileSystem, ledger: string, paths: seq<string>, clock: nat -> string,
                     after: FileSystem, i: nat) {
    && i <= |paths|
    && fs.journal <= after.journal
    && Logged(RowsBefore(after, ledger), RowsBefore(fs, ledger), e, paths, clock, i)
  }

  /** The shared ledger is never one of an image's targets: it ends in 'v',
      they end in 'g'. */
  lemma LedgerIsNoTarget(out: string, dir: string, ext: string)
    requires ext in SaveExtensions
    ensures LedgerPath(out) !in Targets(dir, ext)
  {
    TargetsEndInG(dir, ext);
    var l := LedgerPath(out);
    assert l[|l| - 1] == 'v' by {
      assert l[|l| - |"pwat_data.csv"|..] == "pwat_data.csv";
      assert l[|l| - 1] == l[|l| - |"pwat_data.csv"|..][12];
    }
  }

  /** One pass of `run`'s loop: `save_all` of image `i` into its own
      directory, with the shared ledger. */
  method RunStep(e: Toolkit, w: WoundImage, fs: FileSystem, out: string, paths: seq<string>, clock: nat -> string,
                 after: FileSystem, i: nat)
    returns (next: FileSystem, res: Result<()>)
    requires i < |paths| && w.imagePath == paths[i] && Memoisation.Fresh(w)
    requires Progress(e, fs, LedgerPath(out), paths, clock, after, i)
    ensures fs.journal <= next.journal
    ensures res.Ok? ==> Progress(e, fs, LedgerPath(out), paths, clock, next, i + 1)
    ensures res.Ok? ==> Landed(e, paths[i], after, OutputDir(out, paths[i]), LedgerPath(out), ExtensionOf(paths[i]), clock(i), next)
    ensures res.Err? ==> LedgerKept(after, LedgerPath(out), next)
  {
    var ledger := LedgerPath(out);
    next, res := SaveImage(e, w, out, after, clock(i));
    PrefixTrans(fs.journal, after.journal, next.journal);
    if res.Ok? {
      LoggedStep(RowsBefore(after, ledger), RowsBefore(fs, ledger), e, paths, clock, i);
    }
  }

  /** The body of `run`'s loop for one image `w`, written at time `now`. */
  method SaveImage(e: Toolkit, w: WoundImage, out: string, after: FileSystem, now: string)
    returns (next: FileSystem, res: Result<()>)
    requires Memoisation.Fresh(w)
    ensures |after.journal| <= |next.journal| && next.journal[..|after.journal|] == after.journal
    ensures res.Ok? ==> Landed(e, w.imagePath, after, OutputDir(out, w.imagePath), LedgerPath(out), ExtensionOf(w.imagePath), now, next)
    ensures res.Err? ==> LedgerKept(after, LedgerPath(out), next)
  {
    Memoisation.FreshIsConsistent(e, w);
    if ExtensionOf(w.imagePath) in SaveExtensions {
      LedgerIsNoTarget(out, OutputDir(out, w.imagePath), ExtensionOf(w.imagePath));
    }
    var r, written := SaveAll(e, w, after, OutputDir(out, w.imagePath), LedgerPath(out), ExtensionOf(w.imagePath), now);
    next, res := r.fs, r.out;
  }


  /** `CLI.run` over a folder listed as `listing`, with `clock(i)` the time
      at which image `i` is written to the ledger. Every selected file is
      opened first, so a bad path or a missing file raises before anything
      is written; then each image is saved in turn, and the first failure
      ends the batch (the exception is caught and printed), leaving what was
      written. On success the shared ledger holds what it held before (or a
      header), then one row per image in processing order. */
  method Run(e: Toolkit, input: string, listing: seq<string>, out: string, logging: bool, fs: FileSystem, clock: nat -> string)
    returns (after: FileSystem, res: Result<()>)
    ensures var made := OpenAll(input, Selected(listing), logging, fs);
            made.Err? ==> after == fs && res == Err(made.error)
    ensures fs.journal <= after.journal
    ensures res.Ok? ==>
              Logged(RowsBefore(after, LedgerPath(out)), RowsBefore(fs, LedgerPath(out)), e,
                     InputPaths(input, Selected(listing)), clock, |Selected(listing)|)
    ensures res.Err? && OpenAll(input, Selected(listing), logging, fs).Ok? ==>
              exists n | 0 <= n < |Selected(listing)| ::
                Logged(RowsBefore(after, LedgerPath(out)), RowsBefore(fs, LedgerPath(out)), e,
                       InputPaths(input, Selected(listing)), clock, n)
  {
    after, res := RunSelected(e, input, Selected(listing), out, logging, fs, clock);
  }

  /** `run` once the listing is filtered to `names`. */
  method RunSelected(e: Toolkit, input: string, names: seq<string>, out: string, logging: bool, fs: FileSystem,
                     clock: nat -> string)
    returns (after: FileSystem, res: Result<()>)
    ensures var made := OpenAll(input, names, logging, fs);
            made.Err? ==> after == fs && res == Err(made.error)
    ensures fs.journal <= after.journal
    ensures res.Ok? ==>
              Logged(RowsBefore(after, LedgerPath(out)), RowsBefore(fs, LedgerPath(out)), e,
                     InputPaths(input, names), clock, |names|)
    ensures res.Err? && OpenAll(input, names, logging, fs).Ok? ==>
              exists n | 0 <= n < |names| ::
                Logged(RowsBefore(after, LedgerPath(out)), RowsBefore(fs, LedgerPath(out)), e,
                       InputPaths(input, names), clock, n)
  {
    var made := OpenAll(input, names, logging, fs);
    if made.Err? {
      return fs, Err(made.error);
    }
    OpenedFresh(input, names, logging, fs, made.value);
    after, res := SaveEach(e, made.value, fs, out, InputPaths(input, names), clock);
  }

  /** Every record the comprehension made is fresh and carries its path. */
  lemma OpenedFresh(input: string, names: seq<string>, logging: bool, fs: FileSystem, ws: seq<WoundImage>)
    requires OpenAll(input, names, logging, fs) == Ok(ws)
    ensures |ws| == |names| == |InputPaths(input, names)|
    ensures forall i | 0 <= i < |ws| :: ws[i].imagePath == InputPaths(input, names)[i] && Memoisation.Fresh(ws[i])
  {
    forall i | 0 <= i < |ws|
      ensures ws[i].imagePath == InputPaths(input, names)[i] && Memoisation.Fresh(ws[i])
    {
      assert New(Join(input, names[i]), logging, fs) == Ok(ws[i]);
    }
  }

  /** `run`'s loop over the opened images: each is saved in turn and the
      first failure ends the batch. */
  method SaveEach(e: Toolkit, ws: seq<WoundImage>, fs: FileSystem, out: string, paths: seq<string>, clock: nat -> string)
    returns (after: FileSystem, res: Result<()>)
    requires |ws| == |paths|
    requires forall i | 0 <= i < |ws| :: ws[i].imagePath == paths[i] && Memoisation.Fresh(ws[i])
    ensures fs.journal <= after.journal
    ensures res.Ok? ==> Logged(RowsBefore(after, LedgerPath(out)), RowsBefore(fs, LedgerPath(out)), e, paths, clock, |paths|)
    ensures res.Err? ==> exists n | 0 <= n < |paths| ::
                           Logged(RowsBefore(after, LedgerPath(out)), RowsBefore(fs, LedgerPath(out)), e, paths, clock, n)
  {
    var ledger := LedgerPath(out);
    after := fs;
    var i := 0;
    assert RowsBefore(after, ledger)[..|RowsBefore(fs, ledger)|] == RowsBefore(fs, ledger);
    while i < |ws|
      invariant 0 <= i <= |ws|
      invariant Progress(e, fs, ledger, paths, clock, after, i)
    {
      var next;
      next, res := RunStep(e, ws[i], fs, out, paths, clock, after, i);
      if res.Err? {
        assert Logged(RowsBefore(next, ledger), RowsBefore(fs, ledger), e, paths, clock, i);
        return next, res;
      }
      after := next;
      i := i + 1;
    }
    res := Ok(());
  }
}
