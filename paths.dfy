/** Path and file-name arithmetic of the splitter: joining a directory and an
    entry name, the `.pdf` extension test, the base name and the formula for
    the name of each one-page output. */
module Paths {

  /** A file-system path as the program builds it. */
  type Path = string

  /** What `path.join` puts before an entry name: nothing for the current
      directory `.` and the empty path, the directory itself when it already
      ends in `/` (the root `/`, say), and otherwise the directory and one
      `/`. */
  function DirPrefix(dir: Path): string
  {
    if dir == "" || dir == "." then ""
    else if dir[|dir| - 1] == '/' then dir
    else dir + "/"
  }

  /** `path.join(dir, name)` for an entry name as `readdir` returns it (no
      separator inside). */
  function Join(dir: Path, name: string): Path
  {
    DirPrefix(dir) + name
  }

  /** Two entries of one directory have the same path only if they have the
      same name. */
  lemma JoinInjective(dir: Path, a: string, b: string)
    requires Join(dir, a) == Join(dir, b)
    ensures a == b
  {
    assert a == Join(dir, a)[|DirPrefix(dir)|..];
  }

  /** Index of the last `.` in `s`, or -1 when there is none. */
  function LastDot(s: string): (r: int)
    ensures -1 <= r < |s|
    ensures r >= 0 ==> s[r] == '.'
    ensures forall k :: r < k < |s| ==> s[k] != '.'
  {
    if |s| == 0 then -1
    else if s[|s| - 1] == '.' then |s| - 1
    else LastDot(s[..|s| - 1])
  }

  /** `path.extname` of an entry name: from the last dot to the end; empty when
      there is no dot, when the last dot is the leading dot of a hidden name,
      and for `..`. */
  function ExtName(name: string): string
  {
    var d := LastDot(name);
    if d <= 0 || name == ".." then "" else name[d..]
  }

  function LowerChar(c: char): char
  {
    if 'A' <= c <= 'Z' then (c as int + 32) as char else c
  }

  /** `toLowerCase`, restricted to the letters A-Z. */
  function Lower(s: string): string
  {
    seq(|s|, k requires 0 <= k < |s| => LowerChar(s[k]))
  }

  /** The walk's test for a PDF: the extension, lower-cased, is `.pdf`. */
  predicate IsPdfName(name: string)
  {
    Lower(ExtName(name)) == ".pdf"
  }

  /** A name is taken for a PDF exactly when it ends in `.pdf` in any mix of
      cases and has at least one character before that ending. */
  lemma PdfNameIff(name: string)
    ensures IsPdfName(name) <==> |name| >= 5 && Lower(name[|name| - 4..]) == ".pdf"
  {
    var d := LastDot(name);
    if IsPdfName(name) {
      var e := ExtName(name);
      assert |Lower(e)| == |e| == 4;
      assert e == name[d..];
      assert d == |name| - 4 && d >= 1;
    }
    if |name| >= 5 && Lower(name[|name| - 4..]) == ".pdf" {
      var n := |name|;
      var t := Lower(name[n - 4..]);
      assert t[0] == LowerChar(name[n - 4]) == '.';
      assert t[1] == LowerChar(name[n - 3]) == 'p';
      assert t[2] == LowerChar(name[n - 2]) == 'd';
      assert t[3] == LowerChar(name[n - 1]) == 'f';
      assert d == n - 4;
      assert ExtName(name) == name[n - 4..];
    }
  }

  /** The test ignores case: names that agree once lower-cased are both PDFs
      or both not. */
  lemma PdfNameIgnoresCase(a: string, b: string)
    requires Lower(a) == Lower(b)
    ensures IsPdfName(a) <==> IsPdfName(b)
  {
    PdfNameIff(a);
    PdfNameIff(b);
    assert |a| == |Lower(a)| == |Lower(b)| == |b|;
    if |a| >= 5 {
      assert Lower(a[|a| - 4..]) == Lower(a)[|a| - 4..];
      assert Lower(b[|b| - 4..]) == Lower(b)[|b| - 4..];
    }
  }

  /** `path.basename(file, '.pdf')` where `name` is the last segment of `file`:
      a trailing lower-case `.pdf` is removed, unless it is the whole name. */
  function BaseName(name: string): string
  {
    if |name| > 4 && name[|name| - 4..] == ".pdf" then name[..|name| - 4] else name
  }

  /** The base name is the entry name minus exactly a lower-case `.pdf`
      ending; any other ending, `.PDF` included, is kept. */
  lemma BaseNameStrips(name: string)
    ensures BaseName(name) + ".pdf" == name <==> |name| > 4 && name[|name| - 4..] == ".pdf"
    ensures BaseName(name) != name ==> BaseName(name) + ".pdf" == name
  {
    if |name| > 4 && name[|name| - 4..] == ".pdf" {
      assert name == name[..|name| - 4] + name[|name| - 4..];
    }
  }

  predicate IsDigit(c: char)
  {
    '0' as int <= c as int <= '9' as int
  }

  function DigitChar(d: nat): (c: char)
    requires d < 10
    ensures IsDigit(c) && c as int - '0' as int == d
  {
    (d + '0' as int) as char
  }

  /** Decimal rendering of a number, as `${n}` produces it. */
  function Decimal(n: nat): (s: string)
    ensures |s| >= 1
    ensures forall k :: 0 <= k < |s| ==> IsDigit(s[k])
    ensures n > 0 ==> s[0] != '0'
  {
    if n < 10 then [DigitChar(n)] else Decimal(n / 10) + [DigitChar(n % 10)]
  }

  /** The number a string of digits denotes. */
  function DigitsValue(s: string): nat
    requires forall k :: 0 <= k < |s| ==> IsDigit(s[k])
  {
    if s == [] then 0
    else
      assert IsDigit(s[|s| - 1]);
      DigitsValue(s[..|s| - 1]) * 10 + (s[|s| - 1] as int - '0' as int)
  }

  /** Reading the decimal rendering back gives the number. */
  lemma {:induction false} DecimalRoundTrip(n: nat)
    ensures DigitsValue(Decimal(n)) == n
  {
    if n >= 10 {
      DecimalRoundTrip(n / 10);
      var s := Decimal(n);
      assert s[..|s| - 1] == Decimal(n / 10);
    }
  }

  /** Distinct numbers are rendered differently. */
  lemma DecimalInjective(a: nat, b: nat)
    requires Decimal(a) == Decimal(b)
    ensures a == b
  {
    DecimalRoundTrip(a);
    DecimalRoundTrip(b);
  }

  /** Name of the one-page output with 1-based number `number`:
      `<base><marker><number>.pdf`. */
  function OutputName(marker: string, base: string, number: nat): string
  {
    base + marker + Decimal(number) + ".pdf"
  }

  /** The outputs of one document are all distinct: the number is recovered
      from the name. */
  lemma OutputNameInjective(marker: string, base: string, x: nat, y: nat)
    requires OutputName(marker, base, x) == OutputName(marker, base, y)
    ensures x == y
  {
    var p := base + marker;
    var s := OutputName(marker, base, x);
    assert s == p + Decimal(x) + ".pdf";
    assert |Decimal(x)| == |Decimal(y)|;
    assert Decimal(x) == s[|p|..|s| - 4];
    assert Decimal(y) == s[|p|..|s| - 4];
    DecimalInjective(x, y);
  }

  /** An output name never equals the name of the document it comes from, so
      a split never overwrites its own source. */
  lemma OutputNotSource(marker: string, name: string, number: nat)
    ensures OutputName(marker, BaseName(name), number) != name
  {
    var o := OutputName(marker, BaseName(name), number);
    assert |o| == |BaseName(name)| + |marker| + |Decimal(number)| + 4;
    assert |BaseName(name)| >= |name| - 4;
  }

  /** `X.PDF` passes the test but keeps its extension in the output name. */
  lemma UpperCaseExtensionKept()
    ensures IsPdfName("X.PDF")
    ensures OutputName("_pagina", BaseName("X.PDF"), 1) == "X.PDF_pagina1.pdf"
  {
    PdfNameIff("X.PDF");
    assert Lower("X.PDF"[1..]) == ".pdf";
  }

  /** Because of that, `a.PDF` and `a.PDF.pdf` in one directory both pass the
      test and are split onto the same output names. */
  lemma UpperCaseNamesCollide(marker: string, number: nat)
    ensures IsPdfName("a.PDF") && IsPdfName("a.PDF.pdf")
    ensures "a.PDF" != "a.PDF.pdf"
    ensures OutputName(marker, BaseName("a.PDF"), number) == OutputName(marker, BaseName("a.PDF.pdf"), number)
  {
    PdfNameIff("a.PDF");
    PdfNameIff("a.PDF.pdf");
    assert Lower("a.PDF"[1..]) == ".pdf";
    assert Lower("a.PDF.pdf"[5..]) == ".pdf";
    assert "a.PDF.pdf"[..5] == "a.PDF";
  }
}
