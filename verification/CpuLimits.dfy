/** The CPU allowance LXD is given for a quota and a period in microseconds
    (makeContainerConfig in lxf/container.go). */
module CpuLimits {
  import opened Wrappers
  import opened Text

  /** math.Ceil */
  function Ceil(x: real): int {
    -((-x).Floor)
  }

  /** int(math.Ceil(float64(us)/1000)) */
  function CeilMillis(us: int): int {
    Ceil(us as real / 1000.0)
  }

  /** The text LXD enforces: so many milliseconds out of so many */
  function Allowance(quota: int, period: int): string {
    FormatInt(CeilMillis(quota)) + "ms/" + FormatInt(CeilMillis(period)) + "ms"
  }

  /** Reads such a text: so many milliseconds out of so many */
  function ReadAllowance(text: string): Option<(int, int)> {
    var parts := Split(text, '/');
    if |parts| != 2 then None
    else
      match (ReadMillis(parts[0]), ReadMillis(parts[1]))
      case (Some(q), Some(p)) => Some((q, p))
      case _ => None
  }

  /** A decimal number before the letters ms */
  function ReadMillis(text: string): Option<int64> {
    if |text| < 2 || text[|text| - 2..] != "ms" then None else ParseInt(text[..|text| - 2])
  }

  lemma ReadMillisOfFormat(n: int64)
    ensures ReadMillis(FormatInt(n) + "ms") == Some(n) && Free(FormatInt(n) + "ms", '/')
  {
    var text := FormatInt(n) + "ms";
    assert text[|text| - 2..] == "ms" && text[..|text| - 2] == FormatInt(n);
    ParseIntOfFormat(n);
    var digits := FormatNat(if n < 0 then 0 - n else n);
    assert forall i | 0 <= i < |digits| :: IsDigit(digits[i]);
  }

  lemma ReadOfAllowance(quota: int64, period: uint64)
    ensures -MAX_INT64 - 1 <= CeilMillis(quota) <= MAX_INT64 && -MAX_INT64 - 1 <= CeilMillis(period) <= MAX_INT64
    ensures ReadAllowance(Allowance(quota, period)) == Some((CeilMillis(quota), CeilMillis(period)))
  {
    CeilMillisBounds(quota);
    CeilMillisBounds(period);
    hide CeilMillis, FormatInt;
    var q, p := FormatInt(CeilMillis(quota)) + "ms", FormatInt(CeilMillis(period)) + "ms";
    ReadMillisOfFormat(CeilMillis(quota));
    ReadMillisOfFormat(CeilMillis(period));
    SplitAtSeparator(q, '/', p);
    SplitOfFree(p, '/');
    assert Allowance(quota, period) == q + "/" + p;
  }

  lemma CeilMillisBounds(us: int)
    ensures 1000 * (CeilMillis(us) - 1) < us <= 1000 * CeilMillis(us)
  {
    var x := us as real / 1000.0;
    assert x * 1000.0 == us as real;
    assert CeilMillis(us) as real - 1.0 < x <= CeilMillis(us) as real;
  }

  lemma CeilMillisOfMultiple(us: int)
    requires us % 1000 == 0
    ensures 1000 * CeilMillis(us) == us
  {
    CeilMillisBounds(us);
  }

  /** The text LXD is given reads as Q milliseconds out of P, which are the quota and the period, each rounded up to
      whole milliseconds. */
  lemma AllowanceReads(quota: int64, period: uint64)
    ensures var read := ReadAllowance(Allowance(quota, period));
      && read.Some?
      && 1000 * (read.value.0 - 1) < quota <= 1000 * read.value.0
      && 1000 * (read.value.1 - 1) < period <= 1000 * read.value.1
  {
    ReadOfAllowance(quota, period);
    CeilMillisBounds(quota);
    CeilMillisBounds(period);
  }

  /** For a period of whole milliseconds the share of CPU time that LXD reads from the text is at least the share that
      was asked for, and exceeds it by less than one millisecond per period. */
  lemma AllowanceBounds(quota: int64, period: uint64)
    requires quota > 0 && period > 0 && period % 1000 == 0
    ensures var read := ReadAllowance(Allowance(quota, period));
      && read.Some? && read.value.0 >= 1 && read.value.1 >= 1
      && var q, p := read.value.0 as real, read.value.1 as real;
      var share := quota as real / period as real;
      share <= q / p < share + 1.0 / p
  {
    ReadOfAllowance(quota, period);
    CeilMillisBounds(quota);
    CeilMillisOfMultiple(period);
    hide CeilMillis, ReadAllowance, Allowance;
    ShareBounds(quota, period, CeilMillis(quota), CeilMillis(period));
  }

  lemma ShareBounds(quota: int, period: int, q: int, p: int)
    requires q > 0 && p > 0 && period == 1000 * p && 1000 * (q - 1) < quota <= 1000 * q
    ensures var share := quota as real / period as real;
      share <= q as real / p as real < share + 1.0 / p as real
  {
    var exact := quota as real / 1000.0;
    assert exact <= q as real < exact + 1.0;
    assert quota as real / period as real == exact / p as real by {
      assert period as real == 1000.0 * p as real;
      DivideBoth(quota as real, 1000.0, p as real);
    }
    DivideOrder(exact, q as real, p as real);
    DivideOrderStrict(q as real, exact + 1.0, p as real);
    assert (exact + 1.0) / p as real == exact / p as real + 1.0 / p as real;
  }

  lemma DivideBoth(a: real, b: real, c: real)
    requires b > 0.0 && c > 0.0
    ensures a / (b * c) == (a / b) / c
  {
    var x := a / (b * c);
    assert x * (b * c) == a;
    assert (x * c) * b == a;
    assert a / b == x * c;
  }

  lemma DivideOrder(a: real, b: real, c: real)
    requires a <= b && c > 0.0
    ensures a / c <= b / c
  {
    assert (b / c - a / c) * c == b - a;
  }

  lemma DivideOrderStrict(a: real, b: real, c: real)
    requires a < b && c > 0.0
    ensures a / c < b / c
  {
    DivideOrder(a, b, c);
    assert (a / c) * c == a && (b / c) * c == b;
  }

  /** Every quota gets at least the share that was asked for exactly when the period is a whole number of
      milliseconds; otherwise a quota of one millisecond already gets less. */
  lemma NoShareIsCutExactly(period: uint64)
    requires period > 0
    ensures period % 1000 == 0 <==>
      forall quota: int64 | quota > 0 ::
        var read := ReadAllowance(Allowance(quota, period));
        read.Some? && read.value.0 * period >= quota * read.value.1
  {
    hide ReadAllowance, Allowance;
    CeilMillisBounds(period);
    if period % 1000 == 0 {
      CeilMillisOfMultiple(period);
      forall quota: int64 | quota > 0
        ensures var read := ReadAllowance(Allowance(quota, period));
          read.Some? && read.value.0 * period >= quota * read.value.1
      {
        ReadOfAllowance(quota, period);
        CeilMillisBounds(quota);
        var p := CeilMillis(period);
        assert CeilMillis(quota) * (1000 * p) >= quota * p by {
          assert (1000 * CeilMillis(quota)) * p >= quota * p;
        }
      }
    } else {
      var one: int64 := 1000;
      ReadOfAllowance(one, period);
      CeilMillisOfMultiple(1000);
      assert CeilMillis(1000) * period < 1000 * CeilMillis(period);
      assert !(ReadAllowance(Allowance(one, period)).value.0 * period
               >= one * ReadAllowance(Allowance(one, period)).value.1);
    }
  }
}
