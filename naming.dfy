/** The name under which an uploaded file is stored (the multer `filename` callback):
    `<fieldname>-<timestamp>-<random><extension>`. The clock reading, the random
    suffix and the extension taken from the original file name are parameters. */
module UploadNaming {
  import UploadJanitor

  predicate IsDigit(c: char) { '0' <= c <= '9' }

  predicate AllDigits(s: string) {
    forall i :: 0 <= i < |s| ==> IsDigit(s[i])
  }

  /** The decimal text of a non-negative integer, as string concatenation prints it. */
  function Decimal(n: nat): (s: string)
    ensures |s| >= 1 && AllDigits(s)
  {
    if n < 10 then [DigitChar(n)] else Decimal(n / 10) + [DigitChar(n % 10)]
  }

  function DigitChar(d: nat): (c: char)
    requires d < 10
    ensures IsDigit(c) && c as int - '0' as int == d
  {
    ('0' as int + d) as char
  }

  /** Reads a string of decimal digits back as a number. */
  function ParseDecimal(s: string): nat
    requires AllDigits(s)
  {
    if s == [] then 0 else 10 * ParseDecimal(s[..|s| - 1]) + (s[|s| - 1] as int - '0' as int)
  }

  /** Printing and reading back gives the number again. */
  lemma {:induction false} DecimalRoundTrip(n: nat)
    ensures ParseDecimal(Decimal(n)) == n
  {
    var s := Decimal(n);
    if n >= 10 {
      assert s[..|s| - 1] == Decimal(n / 10);
      DecimalRoundTrip(n / 10);
    } else {
      assert s[..|s| - 1] == [];
    }
  }

  lemma DecimalInjective(m: nat, n: nat)
    requires Decimal(m) == Decimal(n)
    ensures m == n
  {
    DecimalRoundTrip(m);
    DecimalRoundTrip(n);
  }

  /** The largest suffix `Math.round(Math.random() * 1E9)` can produce. */
  const MaxRandomSuffix: nat := 1000000000

  /** What `path.extname` yields: empty, or text starting with a dot. */
  predicate IsExtension(ext: string) {
    ext == [] || ext[0] == '.'
  }

  /** `file.fieldname + '-' + Date.now() + '-' + Math.round(Math.random() * 1E9) + extension`. */
  function UploadFilename(fieldname: string, timestamp: nat, random: nat, ext: string): (name: string)
    requires random <= MaxRandomSuffix
    ensures fieldname + "-" <= name
    ensures |name| == |fieldname| + 1 + |Decimal(timestamp)| + 1 + |Decimal(random)| + |ext|
  {
    fieldname + "-" + Decimal(timestamp) + "-" + Decimal(random) + ext
  }

  /** Two digit strings each followed by text that is empty or starts with a
      non-digit split the same way when their concatenations agree. */
  lemma DigitRunSplit(a: string, b: string, c: string, d: string)
    requires AllDigits(a) && AllDigits(c)
    requires b == [] || !IsDigit(b[0])
    requires d == [] || !IsDigit(d[0])
    requires a + b == c + d
    ensures a == c && b == d
  {
    assert a == (a + b)[..|a|] && c == (c + d)[..|c|];
    assert b == (a + b)[|a|..] && d == (c + d)[|c|..];
  }

  /** A name of the upload shape splits back into its two digit runs and its extension. */
  lemma NameSplit(prefix: string, a1: string, b1: string, e1: string, a2: string, b2: string, e2: string)
    requires AllDigits(a1) && AllDigits(b1) && AllDigits(a2) && AllDigits(b2)
    requires IsExtension(e1) && IsExtension(e2)
    requires prefix + a1 + "-" + b1 + e1 == prefix + a2 + "-" + b2 + e2
    ensures a1 == a2 && b1 == b2 && e1 == e2
  {
    var n1 := prefix + a1 + "-" + b1 + e1;
    var n2 := prefix + a2 + "-" + b2 + e2;
    assert n1[|prefix|..] == a1 + ("-" + b1 + e1);
    assert n2[|prefix|..] == a2 + ("-" + b2 + e2);
    DigitRunSplit(a1, "-" + b1 + e1, a2, "-" + b2 + e2);
    assert ("-" + b1 + e1)[1..] == b1 + e1;
    assert ("-" + b2 + e2)[1..] == b2 + e2;
    DigitRunSplit(b1, e1, b2, e2);
  }

  /** Two uploads through the same field get the same name only when their clock
      readings, random suffixes and extensions all agree. */
  lemma UploadFilenameInjective(fieldname: string, t1: nat, r1: nat, e1: string, t2: nat, r2: nat, e2: string)
    requires r1 <= MaxRandomSuffix && r2 <= MaxRandomSuffix
    requires IsExtension(e1) && IsExtension(e2)
    requires UploadFilename(fieldname, t1, r1, e1) == UploadFilename(fieldname, t2, r2, e2)
    ensures t1 == t2 && r1 == r2 && e1 == e2
  {
    NameSplit(fieldname + "-", Decimal(t1), Decimal(r1), e1, Decimal(t2), Decimal(r2), e2);
    DecimalInjective(t1, t2);
    DecimalInjective(r1, r2);
  }

  /** Every stored payment screenshot carries the janitor's prefix, so the janitor
      deletes it exactly when it is a regular file older than one day. */
  lemma ScreenshotUploadsAreSwept(timestamp: nat, random: nat, ext: string, isFile: bool, mtimeMs: int, now: int)
    requires random <= MaxRandomSuffix
    ensures UploadJanitor.ScreenshotPrefix <= UploadFilename("paymentScreenshot", timestamp, random, ext)
    ensures var e := UploadJanitor.DirEntry(UploadFilename("paymentScreenshot", timestamp, random, ext), isFile, mtimeMs);
      UploadJanitor.IsStale(e, now) <==> isFile && now - mtimeMs > UploadJanitor.MaxAgeMs
  {
    assert "paymentScreenshot" + "-" == UploadJanitor.ScreenshotPrefix;
  }
}
