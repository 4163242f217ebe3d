/** The two path recognisers of the wound pipeline: the image-path pattern
    (final extension png, jpg or jpeg) and the ledger-path pattern (final
    extension csv). Both patterns have the shape

        ^(?:[A-Za-z]:\\|/)?(?:[\w\s.-]+[/\\])*[\w\s.-]+\.(?:EXT)$

    matched with re.match and re.IGNORECASE. `\w` and `\s` are read as their
    ASCII classes and case folding is ASCII-only. Python's `$` also matches
    just before a newline that ends the string; `PatternMatch` models that.

    `FullMatch` is a deterministic recogniser; `Shape`/`Render` is the
    pattern's own grammar. The lemmas prove the two define the same language. */
module PathSyntax {
  import opened Strings

  // ---------------------------------------------------------------------
  // Character classes

  predicate IsAsciiLetter(c: char) {
    'a' <= c <= 'z' || 'A' <= c <= 'Z'
  }

  /** `\w` in ASCII mode. */
  predicate IsWordChar(c: char) {
    IsAsciiLetter(c) || '0' <= c <= '9' || c == '_'
  }

  /** `\s` in ASCII mode: space, tab, newline, return, vertical tab, form feed. */
  predicate IsSpaceChar(c: char) {
    c == ' ' || c == '\t' || c == '\n' || c == '\r' || c as int == 11 || c as int == 12
  }

  /** `[\w\s.-]` */
  predicate IsSegmentChar(c: char) {
    IsWordChar(c) || IsSpaceChar(c) || c == '.' || c == '-'
  }

  /** `[/\\]` */
  predicate IsSeparator(c: char) {
    c == '/' || c == '\\'
  }

  /** `[\w\s.-]+` */
  predicate IsSegment(s: string) {
    |s| > 0 && forall i | 0 <= i < |s| :: IsSegmentChar(s[i])
  }

  function LowerChar(c: char): char {
    if 'A' <= c <= 'Z' then (c as int + 32) as char else c
  }

  function Lower(s: string): (r: string)
    ensures |r| == |s|
    ensures forall i | 0 <= i < |s| :: r[i] == LowerChar(s[i])
  {
    seq(|s|, i requires 0 <= i < |s| => LowerChar(s[i]))
  }

  /** The extension alternatives, lower case, without the dot. */
  const ImageExtensions: set<string> := {"png", "jpg", "jpeg"}
  const CsvExtensions: set<string> := {"csv"}

  /** Every alternative is spelled with lower-case ASCII letters only. */
  ghost predicate LetterExtensions(exts: set<string>) {
    forall x, i | x in exts && 0 <= i < |x| :: 'a' <= x[i] <= 'z'
  }

  // ---------------------------------------------------------------------
  // The recogniser

  /** Length of the optional `[A-Za-z]:\\` or `/` prefix. A string starting
      with either can only match with the prefix taken, because neither ':'
      nor '/' is a segment character. */
  function PrefixLength(s: string): (n: nat)
    ensures n <= |s|
  {
    if |s| >= 3 && IsAsciiLetter(s[0]) && s[1] == ':' && s[2] == '\\' then 3
    else if |s| >= 1 && s[0] == '/' then 1
    else 0
  }

  /** Index of the first separator of `r`, or |r| if there is none. */
  function FirstSeparator(r: string): (i: nat)
    ensures i <= |r|
    ensures forall j | 0 <= j < i :: !IsSeparator(r[j])
    ensures i < |r| ==> IsSeparator(r[i])
  {
    if |r| == 0 then 0
    else if IsSeparator(r[0]) then 0
    else 1 + FirstSeparator(r[1..])
  }

  /** Index of the last '.' of `w`, or -1 if there is none. */
  function LastDot(w: string): (d: int)
    ensures -1 <= d < |w|
    ensures d >= 0 ==> w[d] == '.'
    ensures forall j | d < j < |w| :: w[j] != '.'
  {
    LastIndex(w, '.')
  }

  /** `[\w\s.-]+\.(?:EXT)` for the final path component. The extension sits
      after the last dot because no alternative contains a dot. */
  predicate IsFileName(w: string, exts: set<string>) {
    IsSegment(w) && LastDot(w) > 0 && Lower(w[LastDot(w) + 1..]) in exts
  }

  /** `(?:[\w\s.-]+[/\\])*[\w\s.-]+\.(?:EXT)` */
  predicate Body(r: string, exts: set<string>)
    decreases |r|
  {
    var i := FirstSeparator(r);
    if i == |r| then IsFileName(r, exts)
    else i > 0 && IsSegment(r[..i]) && Body(r[i + 1..], exts)
  }

  /** The whole string matches the pattern up to the very end. */
  predicate FullMatch(s: string, exts: set<string>) {
    Body(s[PrefixLength(s)..], exts)
  }

  /** re.match with a final `$`: the end of the string, or just before a
      newline that is its last character. */
  predicate PatternMatch(s: string, exts: set<string>) {
    FullMatch(s, exts) || (|s| > 0 && s[|s| - 1] == '\n' && FullMatch(s[..|s| - 1], exts))
  }

  /** The check of `_valid_image_path`. */
  predicate IsImagePath(s: string) {
    PatternMatch(s, ImageExtensions)
  }

  /** The check at the top of `save_pwat_to_csv`. */
  predicate IsCsvPath(s: string) {
    PatternMatch(s, CsvExtensions)
  }

  // ---------------------------------------------------------------------
  // The pattern's grammar

  datatype Root = Relative | Absolute | Drive(letter: char)
  datatype Dir = Dir(name: string, sep: char)
  datatype Shape = Shape(root: Root, dirs: seq<Dir>, stem: string, ext: string)

  function RootText(r: Root): string {
    match r
    case Relative => ""
    case Absolute => "/"
    case Drive(c) => [c, ':', '\\']
  }

  function DirsText(ds: seq<Dir>): string {
    if |ds| == 0 then "" else ds[0].name + [ds[0].sep] + DirsText(ds[1..])
  }

  function FileText(stem: string, ext: string): string {
    stem + "." + ext
  }

  function Render(sh: Shape): string {
    RootText(sh.root) + (DirsText(sh.dirs) + FileText(sh.stem, sh.ext))
  }

  /** One way of choosing each part of the pattern. */
  ghost predicate WellFormed(sh: Shape, exts: set<string>) {
    && (sh.root.Drive? ==> IsAsciiLetter(sh.root.letter))
    && (forall i | 0 <= i < |sh.dirs| :: IsSegment(sh.dirs[i].name) && IsSeparator(sh.dirs[i].sep))
    && IsSegment(sh.stem)
    && Lower(sh.ext) in exts
  }

  ghost predicate InLanguage(s: string, exts: set<string>) {
    exists sh :: WellFormed(sh, exts) && Render(sh) == s
  }

  // ---------------------------------------------------------------------
  // Recogniser and grammar agree

  lemma LowerLetterIsLetter(c: char)
    requires 'a' <= LowerChar(c) <= 'z'
    ensures IsAsciiLetter(c)
  {
  }

  /** An accepted extension is made of ASCII letters. */
  lemma ExtensionIsLetters(ext: string, exts: set<string>)
    requires LetterExtensions(exts) && Lower(ext) in exts
    ensures forall i | 0 <= i < |ext| :: IsAsciiLetter(ext[i])
  {
    forall i | 0 <= i < |ext|
      ensures IsAsciiLetter(ext[i])
    {
      assert Lower(ext)[i] == LowerChar(ext[i]);
      LowerLetterIsLetter(ext[i]);
    }
  }

  lemma FirstSeparatorOf(a: string, c: char, b: string)
    requires forall j | 0 <= j < |a| :: !IsSeparator(a[j])
    requires IsSeparator(c)
    ensures FirstSeparator(a + [c] + b) == |a|
    ensures (a + [c] + b)[..|a|] == a && (a + [c] + b)[|a| + 1..] == b
  {
    var r := a + [c] + b;
    assert r[|a|] == c;
  }

  lemma FirstSeparatorNone(r: string)
    requires forall j | 0 <= j < |r| :: !IsSeparator(r[j])
    ensures FirstSeparator(r) == |r|
  {
  }

  /** The final component `stem.ext` is a file name. */
  lemma {:induction false} FileNameRenders(stem: string, ext: string, exts: set<string>)
    requires LetterExtensions(exts) && IsSegment(stem) && Lower(ext) in exts
    ensures IsFileName(stem + "." + ext, exts)
    ensures forall j | 0 <= j < |stem + "." + ext| :: IsSegmentChar((stem + "." + ext)[j])
  {
    var w := stem + "." + ext;
    ExtensionIsLetters(ext, exts);
    assert forall j | |stem| < j < |w| :: w[j] == ext[j - |stem| - 1];
    assert w[|stem|] == '.';
    assert LastDot(w) == |stem|;
    assert w[|stem| + 1..] == ext;
    forall j | 0 <= j < |w|
      ensures IsSegmentChar(w[j])
    {
      if j < |stem| {
        assert w[j] == stem[j];
      } else if j > |stem| {
        assert w[j] == ext[j - |stem| - 1];
      }
    }
  }

  /** The part after the root is accepted by `Body`. */
  lemma {:induction false} DirsRender(ds: seq<Dir>, tail: string, exts: set<string>)
    requires forall i | 0 <= i < |ds| :: IsSegment(ds[i].name) && IsSeparator(ds[i].sep)
    requires IsFileName(tail, exts)
    ensures Body(DirsText(ds) + tail, exts)
    decreases |ds|
  {
    if |ds| == 0 {
      assert DirsText(ds) + tail == tail;
      FileNameIsBody(tail, exts);
    } else {
      var d := ds[0];
      var rest := DirsText(ds[1..]) + tail;
      assert Body(rest, exts) by {
        DirsRender(ds[1..], tail, exts);
      }
      assert DirsText(ds) + tail == d.name + [d.sep] + rest by {
        DirsTextCons(ds, tail);
      }
      BodyCons(d.name, d.sep, rest, exts);
    }
  }

  lemma FileNameIsBody(w: string, exts: set<string>)
    requires IsFileName(w, exts)
    ensures Body(w, exts)
  {
    FirstSeparatorNone(w);
  }

  lemma DirsTextCons(ds: seq<Dir>, tail: string)
    requires |ds| > 0
    ensures DirsText(ds) + tail == ds[0].name + [ds[0].sep] + (DirsText(ds[1..]) + tail)
  {
  }

  /** A segment and a separator in front of an accepted body. */
  lemma BodyCons(a: string, c: char, b: string, exts: set<string>)
    requires IsSegment(a) && IsSeparator(c) && Body(b, exts)
    ensures Body(a + [c] + b, exts)
  {
    FirstSeparatorOf(a, c, b);
  }

  /** ... and it starts with a segment character and holds only segment
      characters and separators. */
  lemma {:induction false} DirsRenderChars(ds: seq<Dir>, tail: string)
    requires forall i | 0 <= i < |ds| :: IsSegment(ds[i].name) && IsSeparator(ds[i].sep)
    requires IsSegment(tail)
    ensures IsSegmentChar((DirsText(ds) + tail)[0])
    ensures forall j | 0 <= j < |DirsText(ds) + tail| :: (DirsText(ds) + tail)[j] != ':'
    decreases |ds|
  {
    var r := DirsText(ds) + tail;
    if |ds| == 0 {
      assert r == tail;
    } else {
      var d := ds[0];
      var rest := DirsText(ds[1..]) + tail;
      DirsRenderChars(ds[1..], tail);
      DirsTextCons(ds, tail);
      assert r[0] == d.name[0];
      forall j | 0 <= j < |r|
        ensures r[j] != ':'
      {
        if j < |d.name| {
          assert r[j] == d.name[j];
        } else if j > |d.name| {
          assert r[j] == rest[j - |d.name| - 1];
        }
      }
    }
  }

  /** A root followed by an accepted body is accepted, the root being taken
      as the optional prefix. */
  lemma RootThenBody(root: Root, rest: string, exts: set<string>)
    requires root.Drive? ==> IsAsciiLetter(root.letter)
    requires Body(rest, exts) && IsSegmentChar(rest[0]) && (|rest| > 1 ==> rest[1] != ':')
    ensures FullMatch(RootText(root) + rest, exts)
  {
    var p := RootText(root);
    var s := p + rest;
    assert PrefixLength(s) == |p| by {
      match root
      case Relative =>
        assert s == rest;
      case Absolute =>
        assert s[0] == '/';
      case Drive(c) =>
        assert s[..3] == [c, ':', '\\'];
    }
    assert s[|p|..] == rest;
  }

  /** Soundness of the recogniser: every string the grammar generates is
      accepted. */
  lemma {:induction false} RenderMatches(sh: Shape, exts: set<string>)
    requires LetterExtensions(exts) && WellFormed(sh, exts)
    ensures FullMatch(Render(sh), exts)
  {
    var tail := FileText(sh.stem, sh.ext);
    var rest := DirsText(sh.dirs) + tail;
    assert IsFileName(tail, exts) by {
      FileNameRenders(sh.stem, sh.ext, exts);
    }
    assert Body(rest, exts) by {
      DirsRender(sh.dirs, tail, exts);
    }
    assert IsSegmentChar(rest[0]) && (|rest| > 1 ==> rest[1] != ':') by {
      DirsRenderChars(sh.dirs, tail);
    }
    RootThenBody(sh.root, rest, exts);
  }

  function DirsOf(r: string, exts: set<string>): (ds: seq<Dir>)
    requires Body(r, exts)
    ensures forall i | 0 <= i < |ds| :: IsSegment(ds[i].name) && IsSeparator(ds[i].sep)
    decreases |r|
  {
    var i := FirstSeparator(r);
    if i == |r| then [] else [Dir(r[..i], r[i])] + DirsOf(r[i + 1..], exts)
  }

  function FileNameOf(r: string, exts: set<string>): (w: string)
    requires Body(r, exts)
    ensures IsFileName(w, exts)
    decreases |r|
  {
    var i := FirstSeparator(r);
    if i == |r| then r else FileNameOf(r[i + 1..], exts)
  }

  lemma SplitAround(r: string, i: nat)
    requires i < |r|
    ensures r[..i] + [r[i]] + r[i + 1..] == r
  {
  }

  lemma SplitAt(s: string, n: nat)
    requires n <= |s|
    ensures s[..n] + s[n..] == s
  {
  }

  lemma Regroup3(a: string, b: string, c: string)
    ensures a + (b + c) == (a + b) + c
  {
  }

  lemma Regroup(a: string, c: char, x: string, y: string, rest: string)
    requires x + y == rest
    ensures (a + [c] + x) + y == a + [c] + rest
  {
  }

  lemma {:induction false} BodyDecomposes(r: string, exts: set<string>)
    requires Body(r, exts)
    ensures DirsText(DirsOf(r, exts)) + FileNameOf(r, exts) == r
    decreases |r|
  {
    var i := FirstSeparator(r);
    if i < |r| {
      var a, c, rest := r[..i], r[i], r[i + 1..];
      BodyDecomposes(rest, exts);
      var x, y := DirsText(DirsOf(rest, exts)), FileNameOf(rest, exts);
      assert DirsText(DirsOf(r, exts)) == a + [c] + x by {
        var ds := DirsOf(r, exts);
        assert ds == [Dir(a, c)] + DirsOf(rest, exts);
        assert ds[1..] == DirsOf(rest, exts);
      }
      assert FileNameOf(r, exts) == y;
      SplitAround(r, i);
      Regroup(a, c, x, y, rest);
    }
  }

  /** The shape read back from an accepted string. */
  function ShapeOf(s: string, exts: set<string>): (sh: Shape)
    requires FullMatch(s, exts)
  {
    var n := PrefixLength(s);
    var r := s[n..];
    var w := FileNameOf(r, exts);
    var d := LastDot(w);
    Shape(RootOf(s), DirsOf(r, exts), w[..d], w[d + 1..])
  }

  function RootOf(s: string): Root {
    var n := PrefixLength(s);
    if n == 3 then Drive(s[0]) else if n == 1 then Absolute else Relative
  }

  lemma RootOfText(s: string)
    ensures RootText(RootOf(s)) == s[..PrefixLength(s)]
    ensures RootOf(s).Drive? ==> IsAsciiLetter(RootOf(s).letter)
  {
    var n := PrefixLength(s);
    if n == 3 {
      assert s[..3] == [s[0], s[1], s[2]];
    } else if n == 1 {
      assert s[..1] == [s[0]];
    }
  }

  /** Completeness of the recogniser: every accepted string is generated by
      the grammar, and `ShapeOf` recovers how. */
  lemma {:induction false} MatchHasShape(s: string, exts: set<string>)
    requires FullMatch(s, exts)
    ensures WellFormed(ShapeOf(s, exts), exts)
    ensures Render(ShapeOf(s, exts)) == s
  {
    var n := PrefixLength(s);
    var r := s[n..];
    var w := FileNameOf(r, exts);
    var d := LastDot(w);
    var sh := ShapeOf(s, exts);
    assert FileText(sh.stem, sh.ext) == w by {
      SplitAround(w, d);
    }
    assert IsSegment(sh.stem) by {
      assert forall j | 0 <= j < d :: sh.stem[j] == w[j];
    }
    BodyDecomposes(r, exts);
    RootOfText(s);
    SplitAt(s, n);
  }

  /** The recogniser accepts exactly the pattern's language. */
  lemma MatchIffInLanguage(s: string, exts: set<string>)
    requires LetterExtensions(exts)
    ensures FullMatch(s, exts) <==> InLanguage(s, exts)
  {
    if FullMatch(s, exts) {
      MatchHasShape(s, exts);
    }
    if InLanguage(s, exts) {
      var sh :| WellFormed(sh, exts) && Render(sh) == s;
      RenderMatches(sh, exts);
    }
  }

  // ---------------------------------------------------------------------
  // Consequences for accepted paths

  /** Inside the part after the root: no empty segment (two separators in a
      row) and no separator at either end. */
  lemma {:induction false} BodyHasNoEmptySegment(r: string, exts: set<string>)
    requires Body(r, exts)
    ensures |r| > 0 && !IsSeparator(r[0]) && !IsSeparator(r[|r| - 1])
    ensures forall j | 0 <= j < |r| - 1 :: IsSeparator(r[j]) ==> !IsSeparator(r[j + 1])
    decreases |r|
  {
    var i := FirstSeparator(r);
    if i < |r| {
      var b := r[i + 1..];
      BodyHasNoEmptySegment(b, exts);
      assert forall k | 0 <= k < |b| :: r[i + 1 + k] == b[k];
      forall j | 0 <= j < |r| - 1 && IsSeparator(r[j])
        ensures !IsSeparator(r[j + 1])
      {
        if j > i {
          assert r[j] == b[j - i - 1];
        }
      }
    }
  }

  /** ... and no ':' at all. */
  lemma {:induction false} BodyHasNoColon(r: string, exts: set<string>)
    requires Body(r, exts)
    ensures forall j | 0 <= j < |r| :: r[j] != ':'
    decreases |r|
  {
    var i := FirstSeparator(r);
    if i == |r| {
      SegmentHasNoColon(r);
    } else {
      var b := r[i + 1..];
      assert forall j | i < j < |r| :: r[j] != ':' by {
        BodyHasNoColon(b, exts);
        forall j | i < j < |r|
          ensures r[j] != ':'
        {
          assert r[j] == b[j - i - 1];
        }
      }
      assert forall j | 0 <= j < i :: r[j] != ':' by {
        SegmentHasNoColon(r[..i]);
        forall j | 0 <= j < i
          ensures r[j] != ':'
        {
          assert r[j] == r[..i][j];
        }
      }
    }
  }

  lemma SegmentHasNoColon(w: string)
    requires IsSegment(w)
    ensures forall j | 0 <= j < |w| :: w[j] != ':'
  {
  }

  /** An accepted path never has two separators in a row nor a trailing
      separator, and a ':' can only be the one of a leading drive prefix. */
  lemma AcceptedPathShape(s: string, exts: set<string>)
    requires FullMatch(s, exts)
    ensures forall j | 0 <= j < |s| - 1 :: IsSeparator(s[j]) ==> !IsSeparator(s[j + 1])
    ensures |s| > 0 && !IsSeparator(s[|s| - 1])
    ensures forall j | 0 <= j < |s| && s[j] == ':' :: j == 1 && IsAsciiLetter(s[0]) && s[2] == '\\'
  {
    var n := PrefixLength(s);
    var r := s[n..];
    BodyHasNoEmptySegment(r, exts);
    BodyHasNoColon(r, exts);
    assert n < |s| && !IsSeparator(s[|s| - 1]) && !IsSeparator(s[n]) by {
      assert s[n] == r[0] && s[|s| - 1] == r[|r| - 1];
    }
    forall j | 0 <= j < |s| - 1 && IsSeparator(s[j])
      ensures !IsSeparator(s[j + 1])
    {
      if j + 1 > n {
        assert s[j] == r[j - n] && s[j + 1] == r[j + 1 - n];
      }
    }
    forall j | n <= j < |s|
      ensures s[j] != ':'
    {
      assert s[j] == r[j - n];
    }
    assert n == 3 ==> IsAsciiLetter(s[0]) && s[1] == ':' && s[2] == '\\';
    assert n == 1 ==> s[0] == '/';
  }

  lemma LastDotOfConcat(s: string, p: string, w: string)
    requires s == p + w && LastDot(w) >= 0
    ensures LastDot(s) == |p| + LastDot(w)
    ensures s[LastDot(s) + 1..] == w[LastDot(w) + 1..]
  {
    var d := LastDot(w);
    assert s[|p| + d] == '.';
  }

  /** The text after the last dot of an accepted path, lower-cased, is one of
      the extension alternatives. */
  lemma AcceptedExtension(s: string, exts: set<string>)
    requires FullMatch(s, exts)
    ensures LastDot(s) > 0 && Lower(s[LastDot(s) + 1..]) in exts
  {
    var n := PrefixLength(s);
    var r := s[n..];
    BodyDecomposes(r, exts);
    var w := FileNameOf(r, exts);
    var p := s[..n] + DirsText(DirsOf(r, exts));
    assert s == p + w by {
      SplitAt(s, n);
      Regroup3(s[..n], DirsText(DirsOf(r, exts)), w);
    }
    LastDotOfConcat(s, p, w);
  }

  /** The final extension of an accepted image path is png, jpg or jpeg in
      any letter case. */
  lemma ImagePathExtension(s: string)
    requires FullMatch(s, ImageExtensions)
    ensures LastDot(s) > 0
    ensures Lower(s[LastDot(s) + 1..]) in {"png", "jpg", "jpeg"}
  {
    AcceptedExtension(s, ImageExtensions);
  }

  /** A ledger path's final extension is csv in any letter case. */
  lemma CsvPathExtension(s: string)
    requires FullMatch(s, CsvExtensions)
    ensures LastDot(s) > 0
    ensures Lower(s[LastDot(s) + 1..]) == "csv"
  {
    AcceptedExtension(s, CsvExtensions);
  }

  /** An accepted ledger path ends in 'v' or 'V', or in the newline `$`
      lets through; so it never ends like an image file name. */
  lemma CsvPathEnding(s: string)
    requires IsCsvPath(s)
    ensures |s| > 0 && (s[|s| - 1] == '\n' || s[|s| - 1] in {'v', 'V'})
  {
    if FullMatch(s, CsvExtensions) {
      CsvPathExtension(s);
      var x := s[LastDot(s) + 1..];
      assert Lower(x)[2] == LowerChar(x[2]);
      assert x[2] == s[|s| - 1];
    }
  }

  /** Python's `$` lets a single trailing newline through: an accepted path
      that does not already end in one is still accepted with one added. */
  lemma TrailingNewlineAccepted(p: string)
    requires IsImagePath(p) && !(|p| > 0 && p[|p| - 1] == '\n')
    ensures IsImagePath(p + "\n")
  {
    assert (p + "\n")[..|p + "\n"| - 1] == p;
  }

  /** A drive prefix and upper-case extensions are accepted. */
  lemma DriveAndUpperCaseAccepted()
    ensures IsCsvPath("C:\\pwat.CSV")
  {
    var s := "C:\\pwat.CSV";
    assert PrefixLength(s) == 3;
    assert s[3..] == "pwat.CSV";
    UpperCaseFileName();
  }

  lemma UpperCaseFileName()
    ensures Body("pwat.CSV", CsvExtensions)
  {
    var w := "pwat.CSV";
    assert IsSegment(w);
    NoSeparatorInExample();
    DotInExample();
    assert Lower("CSV") == "csv" by {
      var l := Lower("CSV");
      assert l[0] == 'c' && l[1] == 's' && l[2] == 'v';
    }
    FileNameIsBody(w, CsvExtensions);
  }

  lemma NoSeparatorInExample()
    ensures FirstSeparator("pwat.CSV") == 8
  {
    assert "pwat.CSV"[1..][1..][1..][1..] == ".CSV";
  }

  lemma DotInExample()
    ensures LastDot("pwat.CSV") == 4 && "pwat.CSV"[5..] == "CSV"
  {
    var w := "pwat.CSV";
    assert LastDot("pwat.") == 4;
    assert "pwat.C"[..5] == "pwat.";
    assert LastDot("pwat.C") == 4;
    assert "pwat.CS"[..6] == "pwat.C";
    assert LastDot("pwat.CS") == 4;
    assert w[..7] == "pwat.CS";
    assert w[5..] == "CSV";
  }

  /** An empty segment is rejected. */
  lemma EmptySegmentRejected()
    ensures !IsImagePath("a//b.png")
  {
    var s := "a//b.png";
    assert FirstSeparator(s) == 1;
    assert s[2..] == "/b.png";
    assert FirstSeparator("/b.png") == 0;
  }
}
