/**
 * D-Bus object paths as the controllers build them with g_strdup_printf:
 * "%s/%s" for a chip and "%s/%s/%u" for a line.
 */
module ObjectPaths {

  /** The path of the daemon's root object manager. */
  const RootPath: string := "/org/gpiod"

  /** "%s/%s": a base path, a slash, then a name. */
  function ObjectPath(base: string, name: string): (p: string)
    ensures |p| == |base| + 1 + |name|
    ensures p[..|base|] == base && p[|base|] == '/' && p[|base| + 1..] == name
  {
    base + "/" + name
  }

  /** The last component of a path that has room for one below base. */
  function ChildName(base: string, p: string): string
    requires |p| > |base|
  {
    p[|base| + 1..]
  }

  /** Whether p is "%s/%s" of base and some name. */
  predicate IsChildPath(base: string, p: string)
  {
    |p| > |base| && p == ObjectPath(base, ChildName(base, p))
  }

  /** Every "%s/%s" path lies directly under its base and gives back its name. */
  lemma ChildOfObjectPath(base: string, name: string)
    ensures IsChildPath(base, ObjectPath(base, name)) && ChildName(base, ObjectPath(base, name)) == name
  {
    assert ObjectPath(base, name)[|base| + 1..] == name;
  }

  /** The name is recovered from the path, so one base never yields one path for two names. */
  lemma ObjectPathInjective(base: string)
    ensures forall a, b :: ObjectPath(base, a) == ObjectPath(base, b) ==> a == b
  {
    forall a, b | ObjectPath(base, a) == ObjectPath(base, b) ensures a == b {
      ChildOfObjectPath(base, a);
      ChildOfObjectPath(base, b);
    }
  }

  predicate IsDigit(c: char)
  {
    '0' <= c <= '9'
  }

  function DigitChar(d: nat): (c: char)
    requires d < 10
    ensures IsDigit(c) && c as int - '0' as int == d
  {
    ('0' as int + d) as char
  }

  /** "%u": the decimal digits of n, most significant first, with no leading zero. */
  function Decimal(n: nat): (s: string)
    ensures |s| > 0
    ensures forall i :: 0 <= i < |s| ==> IsDigit(s[i])
    ensures s[0] == '0' ==> n == 0 && s == "0"
    decreases n
  {
    if n < 10 then [DigitChar(n)] else Decimal(n / 10) + [DigitChar(n % 10)]
  }

  /** The number a string of decimal digits denotes. */
  function DecimalValue(s: string): nat
    requires forall i :: 0 <= i < |s| ==> IsDigit(s[i])
  {
    if s == [] then 0
    else
      assert IsDigit(s[|s| - 1]);
      DecimalValue(s[..|s| - 1]) * 10 + (s[|s| - 1] as int - '0' as int)
  }

  /** Reading back the digits "%u" prints gives the number printed. */
  lemma {:induction false} DecimalRoundTrip(n: nat)
    ensures DecimalValue(Decimal(n)) == n
    decreases n
  {
    if n >= 10 {
      var s := Decimal(n);
      assert s[..|s| - 1] == Decimal(n / 10);
      DecimalRoundTrip(n / 10);
    }
  }

  /** Distinct numbers print differently. */
  lemma DecimalInjective(a: nat, b: nat)
    ensures Decimal(a) == Decimal(b) ==> a == b
  {
    DecimalRoundTrip(a);
    DecimalRoundTrip(b);
  }

  /** "%s/%s/%u": the line's path is nested under its chip's path. */
  function LinePath(base: string, chip: string, offset: nat): (p: string)
    ensures var c := ObjectPath(base, chip); |p| > |c| + 1 && p[..|c|] == c && p[|c|] == '/'
  {
    base + "/" + chip + "/" + Decimal(offset)
  }

  /** A line's path is its chip's path, a slash, and the printed offset, and
      the offset is read back from the last path element. */
  lemma {:induction false} LinePathUnderChipPath(base: string, chip: string, offset: nat)
    ensures LinePath(base, chip, offset) == ObjectPath(ObjectPath(base, chip), Decimal(offset))
    ensures var p := LinePath(base, chip, offset); var k := |ObjectPath(base, chip)| + 1;
      k <= |p| && p[..k - 1] == ObjectPath(base, chip) && p[k - 1] == '/'
      && p[k..] == Decimal(offset) && DecimalValue(p[k..]) == offset
  {
    var p := LinePath(base, chip, offset);
    var k := |ObjectPath(base, chip)| + 1;
    assert p == ObjectPath(base, chip) + "/" + Decimal(offset);
    assert p[k..] == Decimal(offset);
    DecimalRoundTrip(offset);
  }

  /** Two lines of one chip get the same path only if their offsets agree. */
  lemma LinePathInjective(base: string, chip: string, a: nat, b: nat)
    ensures LinePath(base, chip, a) == LinePath(base, chip, b) ==> a == b
  {
    LinePathUnderChipPath(base, chip, a);
    LinePathUnderChipPath(base, chip, b);
    DecimalInjective(a, b);
  }
}
