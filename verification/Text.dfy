/** The string functions of the Go standard library that the code relies on:
    prefixes, splitting and joining, and decimal numbers and booleans. */
module Text {
  import opened Wrappers

  const MAX_INT64: int := 0x7FFF_FFFF_FFFF_FFFF
  const MAX_UINT32: int := 0xFFFF_FFFF
  const MAX_UINT64: int := 0xFFFF_FFFF_FFFF_FFFF

  type int64 = n: int | -MAX_INT64 - 1 <= n <= MAX_INT64
  type uint32 = n: int | 0 <= n <= MAX_UINT32
  type uint64 = n: int | 0 <= n <= MAX_UINT64

  // ---------- Prefixes ----------

  predicate HasPrefix(s: string, p: string) {
    |p| <= |s| && s[..|p|] == p
  }

  /** One differing position is enough to rule a prefix out. */
  lemma Differs(s: string, p: string, i: nat)
    requires i < |s| && i < |p| && s[i] != p[i]
    ensures !HasPrefix(s, p) && !HasPrefix(p, s)
  {
    assert |p| <= |s| ==> s[..|p|][i] == s[i];
    assert |s| <= |p| ==> p[..|s|][i] == p[i];
  }

  // ---------- Decimal numbers ----------

  predicate IsDigit(c: char) {
    '0' <= c <= '9'
  }

  predicate AllDigits(s: string) {
    forall i | 0 <= i < |s| :: IsDigit(s[i])
  }

  function FormatNat(n: nat): (s: string)
    ensures s != "" && AllDigits(s)
  {
    if n < 10 then ['0' + n as char] else FormatNat(n / 10) + ['0' + (n % 10) as char]
  }

  /** strconv.FormatInt in base 10 */
  function FormatInt(n: int): string {
    if n < 0 then "-" + FormatNat(-n) else FormatNat(n)
  }

  /** The value of a digit string, most significant digit first. */
  function NatValue(s: string): nat
    requires AllDigits(s)
  {
    if s == "" then 0 else 10 * NatValue(s[..|s| - 1]) + (s[|s| - 1] as int - '0' as int)
  }

  /** strconv.ParseUint in base 10: at least one digit, nothing but digits, at most `max` */
  function ParseUint(s: string, max: nat): Option<nat> {
    if s != "" && AllDigits(s) && NatValue(s) <= max then Some(NatValue(s)) else None
  }

  /** strconv.ParseInt in base 10 and 64 bits, and strconv.Atoi: an optional sign, then digits */
  function ParseInt(s: string): Option<int64> {
    if s == "" then None
    else if s[0] == '-' then
      match ParseUint(s[1..], MAX_INT64 + 1) case Some(n) => Some(0 - n) case None => None
    else
      match ParseUint(if s[0] == '+' then s[1..] else s, MAX_INT64) case Some(n) => Some(n) case None => None
  }

  lemma {:induction false} NatValueOfFormat(n: nat)
    ensures NatValue(FormatNat(n)) == n
  {
    if n >= 10 {
      NatValueOfFormat(n / 10);
      var s := FormatNat(n);
      assert s[..|s| - 1] == FormatNat(n / 10);
    } else {
      assert FormatNat(n)[..0] == "";
    }
  }

  lemma ParseUintOfFormat(n: nat, max: nat)
    requires n <= max
    ensures ParseUint(FormatNat(n), max) == Some(n)
  {
    NatValueOfFormat(n);
  }

  lemma ParseIntOfFormat(n: int64)
    ensures ParseInt(FormatInt(n)) == Some(n)
  {
    var s, magnitude := FormatInt(n), if n < 0 then 0 - n else n;
    if n < 0 {
      NatValueOfFormat(magnitude);
      assert s[1..] == FormatNat(magnitude);
    } else {
      NatValueOfFormat(n);
      assert IsDigit(s[0]);
    }
  }

  // ---------- Booleans ----------

  lemma FormatIntIsNotEmpty(n: int)
    ensures FormatInt(n) != ""
  {
  }

  function FormatBool(b: bool): string {
    if b then "true" else "false"
  }

  /** strconv.ParseBool */
  function ParseBool(s: string): Option<bool> {
    if s in ["1", "t", "T", "TRUE", "true", "True"] then Some(true)
    else if s in ["0", "f", "F", "FALSE", "false", "False"] then Some(false)
    else None
  }

  lemma ParseBoolOfFormat(b: bool)
    ensures ParseBool(FormatBool(b)) == Some(b)
  {
    var yes := ["1", "t", "T", "TRUE", "true", "True"];
    var no := ["0", "f", "F", "FALSE", "false", "False"];
    assert yes[4] == "true" && no[4] == "false";
    assert "false" !in yes;
  }

  // ---------- Splitting and joining ----------

  /** The first position of `c` at or after `from`, or the length */
  function IndexFrom(s: string, c: char, from: nat): (i: nat)
    requires from <= |s|
    ensures from <= i <= |s|
    ensures forall j | from <= j < i :: s[j] != c
    ensures i < |s| ==> s[i] == c
    decreases |s| - from
  {
    if from == |s| || s[from] == c then from else IndexFrom(s, c, from + 1)
  }

  predicate Free(s: string, c: char) {
    forall i | 0 <= i < |s| :: s[i] != c
  }

  /** strings.Join with a one-character separator */
  function Join(parts: seq<string>, sep: char): string {
    if |parts| == 0 then ""
    else if |parts| == 1 then parts[0]
    else parts[0] + [sep] + Join(parts[1..], sep)
  }

  /** strings.Split with a one-character separator; never empty */
  function Split(s: string, sep: char): (parts: seq<string>)
    ensures parts != []
    ensures forall p | p in parts :: Free(p, sep)
  {
    if s == "" then [""]
    else
      var rest := Split(s[1..], sep);
      if s[0] == sep then [""] + rest
      else
        assert rest[0] in rest && Free([s[0]] + rest[0], sep);
        [[s[0]] + rest[0]] + rest[1..]
  }

  lemma {:induction false} SplitOfFree(s: string, sep: char)
    requires Free(s, sep)
    ensures Split(s, sep) == [s]
  {
    if s != "" {
      SplitOfFree(s[1..], sep);
      assert [s[0]] + s[1..] == s;
    }
  }

  /** The first separator splits the first part off. */
  lemma {:induction false} SplitAtSeparator(a: string, sep: char, b: string)
    requires Free(a, sep)
    ensures Split(a + [sep] + b, sep) == [a] + Split(b, sep)
  {
    var s := a + [sep] + b;
    if a == "" {
      assert s[1..] == b;
    } else {
      assert s[1..] == a[1..] + [sep] + b;
      SplitAtSeparator(a[1..], sep, b);
      assert [s[0]] + a[1..] == a;
    }
  }

  lemma {:induction false} SplitOfJoin(parts: seq<string>, sep: char)
    requires parts != []
    requires forall p | p in parts :: Free(p, sep)
    ensures Split(Join(parts, sep), sep) == parts
  {
    assert parts[0] in parts;
    if |parts| == 1 {
      SplitOfFree(parts[0], sep);
    } else {
      SplitOfJoin(parts[1..], sep);
      SplitAtSeparator(parts[0], sep, Join(parts[1..], sep));
    }
  }

  lemma {:induction false} JoinOfSplit(s: string, sep: char)
    ensures Join(Split(s, sep), sep) == s
  {
    if s != "" {
      JoinOfSplit(s[1..], sep);
      var rest := Split(s[1..], sep);
      if s[0] == sep {
        assert ([""] + rest)[1..] == rest;
      } else {
        assert Split(s, sep)[1..] == rest[1..];
      }
    }
  }

  /** A list of strings survives being joined and split again exactly when it is not empty and no
      element contains the separator. */
  lemma SplitOfJoinExactly(parts: seq<string>, sep: char)
    ensures Split(Join(parts, sep), sep) == parts <==> parts != [] && forall p | p in parts :: Free(p, sep)
  {
    if parts != [] && forall p | p in parts :: Free(p, sep) {
      SplitOfJoin(parts, sep);
    }
  }

  /** It comes back as one empty string exactly when it was empty or already that. */
  lemma EmptySplitExactly(parts: seq<string>, sep: char)
    ensures Split(Join(parts, sep), sep) == [""] <==> parts in {[], [""]}
  {
    JoinOfSplit(Join(parts, sep), sep);
    assert Split("", sep) == [""] && Join([""], sep) == "";
    assert Join(parts, sep) == "" <==> parts == [] || parts == [""];
  }
}
