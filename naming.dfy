/**
 * The strings the patcher produces: the label flag, the decimal patch index,
 * the image stem taken from the input file name, the patch file name and the
 * line appended to the description manifest.
 */
module Naming {
  import opened Wrappers

  const PATCH_FILENAME_EXTENSION := "jpg"

  /** The two labels a saved patch can carry. */
  datatype Label = Present | Absent

  /** The `car_presence_flag` string handed to `save_patch`. */
  function Flag(lab: Label): (f: string)
    ensures |f| == 1 && (f[0] == '0' <==> lab == Absent) && (f[0] == '1' <==> lab == Present)
  {
    match lab
    case Present => "1"
    case Absent => "0"
  }

  // ---------------------------------------------------------------------
  // Decimal rendering of the patch index (an f-string of a non-negative int)
  // ---------------------------------------------------------------------

  predicate IsDigits(s: string) {
    forall i :: 0 <= i < |s| ==> '0' <= s[i] <= '9'
  }

  function DigitChar(d: nat): (c: char)
    requires d < 10
    ensures '0' <= c <= '9'
  {
    (48 + d) as char
  }

  function DigitValue(c: char): (d: nat)
    requires '0' <= c <= '9'
    ensures d < 10 && DigitChar(d) == c
  {
    (c as int - 48) as nat
  }

  /** The text Python's `str` gives for a non-negative integer: no sign, no leading zeros. */
  function Decimal(n: nat): (s: string)
    ensures |s| >= 1 && IsDigits(s)
    ensures s[0] == '0' ==> n == 0
    decreases n
  {
    if n < 10 then [DigitChar(n)] else Decimal(n / 10) + [DigitChar(n % 10)]
  }

  /** Reads a run of decimal digits back as a number. */
  function ParseDecimal(s: string): nat
    requires |s| >= 1 && IsDigits(s)
    decreases |s|
  {
    if |s| == 1 then DigitValue(s[0])
    else 10 * ParseDecimal(s[..|s| - 1]) + DigitValue(s[|s| - 1])
  }

  /** Rendering an index and reading it back gives the index again. */
  lemma {:induction false} ParseDecimalInverse(n: nat)
    ensures ParseDecimal(Decimal(n)) == n
    decreases n
  {
    if n >= 10 {
      var s := Decimal(n);
      assert s[..|s| - 1] == Decimal(n / 10);
      ParseDecimalInverse(n / 10);
    }
  }

  /** Two different indices never render to the same text. */
  lemma DecimalInjective(m: nat, n: nat)
    requires Decimal(m) == Decimal(n)
    ensures m == n
  {
    ParseDecimalInverse(m);
    ParseDecimalInverse(n);
  }

  // ---------------------------------------------------------------------
  // str.split on a single-character separator
  // ---------------------------------------------------------------------

  function Count(s: string, c: char): nat
    decreases |s|
  {
    if s == [] then 0 else (if s[0] == c then 1 else 0) + Count(s[1..], c)
  }

  /** Glues the parts back together with the separator between them. */
  function Join(parts: seq<string>, sep: char): string
    requires |parts| >= 1
    decreases |parts|
  {
    if |parts| == 1 then parts[0] else parts[0] + [sep] + Join(parts[1..], sep)
  }

  /**
   * Python's `s.split(sep)`: one part more than there are separators, no part
   * holds the separator, and joining the parts gives `s` back.
   */
  function Split(s: string, sep: char): (parts: seq<string>)
    ensures |parts| == Count(s, sep) + 1
    ensures forall i :: 0 <= i < |parts| ==> sep !in parts[i]
    ensures Join(parts, sep) == s
    decreases |s|
  {
    if s == [] then [""]
    else
      var rest := Split(s[1..], sep);
      if s[0] == sep then
        assert [sep] + Join(rest, sep) == s;
        [""] + rest
      else
        var parts := [[s[0]] + rest[0]] + rest[1..];
        assert parts[1..] == rest[1..];
        assert Join(parts, sep) == s by {
          if |rest| > 1 {
            assert Join(rest, sep) == rest[0] + [sep] + Join(rest[1..], sep);
          }
        }
        parts
  }

  /** Why splitting the image name on dots did not give exactly two parts to unpack. */
  datatype StemError = WrongNumberOfParts(parts: nat)

  /**
   * The stem `Patcher.__init__` keeps: splitting the name on dots and unpacking
   * the parts into two names succeeds only for a name with
   * exactly one dot and then yields the text before it; any other name raises.
   */
  function Stem(name: string): (r: Result<string, StemError>)
    ensures r.Success? <==> Count(name, '.') == 1
    ensures r.Success? ==>
      && |r.value| < |name|
      && name[..|r.value|] == r.value
      && name[|r.value|] == '.'
      && '.' !in r.value
      && '.' !in name[|r.value| + 1..]
    ensures r.Failure? ==> r.error.parts == Count(name, '.') + 1
  {
    var parts := Split(name, '.');
    if |parts| == 2 then
      assert Join(parts[1..], '.') == parts[1];
      assert name == parts[0] + ['.'] + parts[1];
      assert name[|parts[0]| + 1..] == parts[1];
      Success(parts[0])
    else
      Failure(WrongNumberOfParts(|parts|))
  }

  // ---------------------------------------------------------------------
  // Patch file name and manifest line
  // ---------------------------------------------------------------------

  /** `{flag}_{stem}_patch{index}.jpg`, the name `save_patch` writes under. */
  function PatchFileName(lab: Label, stem: string, index: nat): (n: string)
    ensures |n| == |stem| + |Decimal(index)| + 12
    ensures n[..2] == Flag(lab) + "_" && n[2..2 + |stem|] == stem && n[|n| - 4..] == ".jpg"
  {
    Flag(lab) + "_" + stem + "_patch" + Decimal(index) + "." + PATCH_FILENAME_EXTENSION
  }

  /** The line `save_txt_description` appends, formatted on its own as the program does. */
  function ManifestLine(lab: Label, stem: string, index: nat): (line: string)
    ensures |line| > 3 && line[|line| - 3..] == " " + Flag(lab) + "\n"
    ensures line[..2] == Flag(lab) + "_"
    ensures '\n' !in stem ==> '\n' !in line[..|line| - 1]
  {
    Flag(lab) + "_" + stem + "_patch" + Decimal(index) + "." + PATCH_FILENAME_EXTENSION
      + " " + Flag(lab) + "\n"
  }

  /**
   * The manifest line written for a patch is that patch's file name, a space,
   * the flag and a newline: both are built from the same, not yet incremented,
   * index.
   */
  lemma ManifestLineNamesFile(lab: Label, stem: string, index: nat)
    ensures ManifestLine(lab, stem, index) == PatchFileName(lab, stem, index) + " " + Flag(lab) + "\n"
    ensures ManifestLine(lab, stem, index)[|PatchFileName(lab, stem, index)| + 1] == Flag(lab)[0]
  {
  }

  /**
   * Within one image the file name determines both the label and the index:
   * the flag is its first character and the digits between `_patch` and
   * `.jpg` read back as the index.
   */
  lemma {:induction false} PatchFileNameInjective(l1: Label, l2: Label, stem: string, i: nat, j: nat)
    requires PatchFileName(l1, stem, i) == PatchFileName(l2, stem, j)
    ensures l1 == l2 && i == j
  {
    var n1, n2 := PatchFileName(l1, stem, i), PatchFileName(l2, stem, j);
    assert n1[0] == Flag(l1)[0] && n2[0] == Flag(l2)[0];
    assert l1 == l2;
    var prefix := Flag(l1) + "_" + stem + "_patch";
    var suffix := "." + PATCH_FILENAME_EXTENSION;
    var d1, d2 := Decimal(i), Decimal(j);
    assert n1 == prefix + d1 + suffix;
    assert n2 == prefix + d2 + suffix;
    assert |d1| == |d2|;
    assert n1[|prefix|..|prefix| + |d1|] == d1;
    assert n2[|prefix|..|prefix| + |d2|] == d2;
    DecimalInjective(i, j);
  }

  /** Two patches of one image with different indices never share a file name. */
  lemma DistinctIndicesDistinctNames(l1: Label, l2: Label, stem: string, i: nat, j: nat)
    requires i != j
    ensures PatchFileName(l1, stem, i) != PatchFileName(l2, stem, j)
  {
    if PatchFileName(l1, stem, i) == PatchFileName(l2, stem, j) {
      PatchFileNameInjective(l1, l2, stem, i, j);
    }
  }
}
