/**
 * POSIX `st_mode` values and the uploader's directory test on them: the
 * decimal rendering of the mode (`str(attr.st_mode)`) must start with "16877",
 * the decimal value of 0o40755.
 */
module FileMode {

  /** 0o40755: a directory with permissions rwxr-xr-x. */
  const DirMode: nat := 16877
  /** 0o100644: a regular file with permissions rw-r--r--. */
  const RegularFileMode: nat := 33188
  /** 0o40775: a directory with permissions rwxrwxr-x. */
  const GroupWritableDirMode: nat := 16893

  /** `S_ISDIR(mode)`: the file-type bits (mask 0o170000) equal 0o040000. */
  predicate IsDirMode(mode: nat) {
    (mode / 4096) % 16 == 4
  }

  predicate IsDigit(c: char) {
    '0' <= c <= '9'
  }

  function Digit(d: nat): (c: char)
    requires d < 10
    ensures IsDigit(c)
  {
    ('0' as int + d) as char
  }

  function DigitValue(c: char): nat
    requires IsDigit(c)
  {
    c as int - '0' as int
  }

  /** `str(n)` for a natural number: its decimal digits, most significant first, without leading zeros. */
  function DecimalString(n: nat): (s: string)
    ensures 1 <= |s|
    ensures forall i :: 0 <= i < |s| ==> IsDigit(s[i])
    ensures s[0] == '0' <==> n == 0
  {
    if n < 10 then [Digit(n)] else DecimalString(n / 10) + [Digit(n % 10)]
  }

  /** The number a string of decimal digits denotes. */
  function DecimalValue(s: string): nat
    requires forall i :: 0 <= i < |s| ==> IsDigit(s[i])
  {
    if s == [] then 0 else DecimalValue(s[..|s| - 1]) * 10 + DigitValue(s[|s| - 1])
  }

  /** Reading back the decimal rendering gives the number again. */
  lemma {:induction false} DecimalRoundTrip(n: nat)
    ensures DecimalValue(DecimalString(n)) == n
  {
    var s := DecimalString(n);
    if n >= 10 {
      DecimalRoundTrip(n / 10);
      assert s[..|s| - 1] == DecimalString(n / 10);
    }
  }

  /** A number below 10^k has at most k decimal digits. */
  lemma {:induction false} DecimalLengthBelow(n: nat, k: nat, bound: nat)
    requires 1 <= k && bound == Pow10(k) && n < bound
    ensures |DecimalString(n)| <= k
  {
    if n >= 10 {
      assert k > 1;
      DecimalLengthBelow(n / 10, k - 1, Pow10(k - 1));
    }
  }

  function Pow10(k: nat): (r: nat)
    ensures r >= 1
  {
    if k == 0 then 1 else 10 * Pow10(k - 1)
  }

  /** `str(mode).startswith('16877')`: the uploader's test for "remote path is a directory". */
  predicate LooksLikeDir(mode: nat) {
    "16877" <= DecimalString(mode)
  }

  /**
   * Every 16-bit mode (file type plus permission bits) passes the uploader's
   * directory test exactly when it is 0o40755: directories with other
   * permissions are not recognised.
   */
  lemma {:induction false} LooksLikeDirExactly(mode: nat)
    requires mode < 65536
    ensures LooksLikeDir(mode) <==> mode == DirMode
  {
    var s := DecimalString(mode);
    DecimalLengthBelow(mode, 5, Pow10(5));
    if LooksLikeDir(mode) {
      assert s == "16877";
      DecimalRoundTrip(mode);
      assert DecimalValue("1") == 1;
      assert "16877"[..4] == "1687" && "1687"[..3] == "168" && "168"[..2] == "16" && "16"[..1] == "1";
    } else {
      assert DecimalString(16877) == "16877" by {
        assert DecimalString(1) == "1";
        assert DecimalString(16) == "16";
        assert DecimalString(168) == "168";
        assert DecimalString(1687) == "1687";
      }
    }
  }

  /** The test accepts the directory mode it was written for. */
  lemma DirModeLooksLikeDir()
    ensures LooksLikeDir(DirMode) && IsDirMode(DirMode)
  {
    LooksLikeDirExactly(DirMode);
  }

  /** A plain file is never taken for a directory. */
  lemma RegularFileModeIsNotDir()
    ensures !LooksLikeDir(RegularFileMode) && !IsDirMode(RegularFileMode)
  {
    LooksLikeDirExactly(RegularFileMode);
  }

  /** A group-writable directory (0o40775) is a directory that the test does not recognise. */
  lemma GroupWritableDirMissed()
    ensures IsDirMode(GroupWritableDirMode) && !LooksLikeDir(GroupWritableDirMode)
  {
    LooksLikeDirExactly(GroupWritableDirMode);
  }
}
