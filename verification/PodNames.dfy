/** Pod names: printed as "<statefulset>-<ordinal>", parsed back by the plan builder. */
module PodNames {
  import opened Placement

  const MAX_INT: int := 0x7FFF_FFFF_FFFF_FFFF

  // ---------- decimal numerals ----------

  predicate IsDigit(c: char) { '0' <= c <= '9' }

  function DigitChar(d: int): char
    requires 0 <= d < 10
  {
    '0' + d as char
  }

  function Itoa(n: nat): (s: string)
    ensures s != "" && forall i :: 0 <= i < |s| ==> IsDigit(s[i])
  {
    if n < 10 then [DigitChar(n)] else Itoa(n / 10) + [DigitChar(n % 10)]
  }

  /** The value of a digit string, or nothing when it is empty or has another character. */
  function DigitsValue(s: string): Option<nat> {
    if s == "" then None
    else
      var k := |s| - 1;
      if !IsDigit(s[k]) then None
      else
        var d := (s[k] - '0') as nat;
        if k == 0 then Some(d)
        else match DigitsValue(s[..k])
          case None => None
          case Some(v) => Some(10 * v + d)
  }

  /** strconv.Atoi on a 64-bit platform: optional sign, digits, range check. */
  function Atoi(s: string): Option<int> {
    var negative := s != "" && s[0] == '-';
    var digits := if s != "" && (s[0] == '-' || s[0] == '+') then s[1..] else s;
    match DigitsValue(digits)
    case None => None
    case Some(v) =>
      if negative then (if v <= MAX_INT + 1 then Some(-(v as int)) else None)
      else if v <= MAX_INT then Some(v) else None
  }

  lemma {:induction false} DigitsOfItoa(n: nat)
    ensures DigitsValue(Itoa(n)) == Some(n)
  {
    if n >= 10 {
      DigitsOfItoa(n / 10);
      var s := Itoa(n);
      assert s[..|s| - 1] == Itoa(n / 10);
    }
  }

  lemma AtoiOfItoa(n: nat)
    requires n <= MAX_INT
    ensures Atoi(Itoa(n)) == Some(n)
  {
    DigitsOfItoa(n);
    assert IsDigit(Itoa(n)[0]);
  }

  lemma {:induction false} DigitsValueExactly(s: string)
    ensures DigitsValue(s).Some? <==> s != "" && forall i :: 0 <= i < |s| ==> '0' <= s[i] <= '9'
  {
    var k := |s| - 1;
    if k > 0 {
      DigitsValueExactly(s[..k]);
      assert s == s[..k] + [s[k]];
    }
  }

  /** A numeral is an optional sign and digits, within the range of a 64-bit integer. */
  lemma AtoiExactly(s: string)
    ensures var digits := if s != "" && (s[0] == '-' || s[0] == '+') then s[1..] else s;
            Atoi(s).Some? <==>
              && digits != "" && (forall i :: 0 <= i < |digits| ==> '0' <= digits[i] <= '9')
              && DigitsValue(digits).Some?
              && DigitsValue(digits).value <= if s[0] == '-' then 0x8000_0000_0000_0000 else 0x7FFF_FFFF_FFFF_FFFF
  {
    DigitsValueExactly(if s != "" && (s[0] == '-' || s[0] == '+') then s[1..] else s);
  }

  // ---------- pod names ----------

  function PodName(sts: string, ordinal: nat): string {
    sts + "-" + Itoa(ordinal)
  }

  /** What follows the last dash; nothing when there is no dash. */
  function AfterLastDash(s: string): string {
    if s == "" then ""
    else if '-' in s[1..] then AfterLastDash(s[1..])
    else if s[0] == '-' then s[1..]
    else ""
  }

  function PodOrdinal(podID: string): Option<int> {
    Atoi(AfterLastDash(podID))
  }

  lemma {:induction false} AfterLastDashAt(s: string, i: nat)
    requires i < |s| && s[i] == '-' && '-' !in s[i+1..]
    ensures AfterLastDash(s) == s[i+1..]
  {
    if i > 0 {
      assert s[1..][i-1] == '-';
      assert s[1..][i..] == s[i+1..];
      AfterLastDashAt(s[1..], i - 1);
    }
  }

  lemma {:induction false} AfterLastDashNone(s: string)
    requires '-' !in s
    ensures AfterLastDash(s) == ""
  {
  }

  /** The backward scan for the dash, then Atoi; no pod and no number give nothing. */
  method FindCurrentAssignment(podID: string) returns (r: Option<int>)
    ensures r == PodOrdinal(podID)
  {
    if podID == "" {
      return None;
    }
    var podSuffix := "";
    var i := |podID| - 1;
    while i >= 0
      invariant -1 <= i < |podID|
      invariant '-' !in podID[i+1..]
      invariant podSuffix == ""
    {
      if podID[i] == '-' {
        podSuffix := podID[i+1..];
        AfterLastDashAt(podID, i);
        break;
      }
      assert podID[i..] == [podID[i]] + podID[i+1..];
      i := i - 1;
    }
    if i < 0 {
      assert podID[0..] == podID;
      AfterLastDashNone(podID);
    }
    r := Atoi(podSuffix);
  }

  /** Printing a pod name and reading its ordinal back. */
  lemma OrdinalRoundTrip(sts: string, ordinal: nat)
    requires ordinal <= MAX_INT
    ensures PodOrdinal(PodName(sts, ordinal)) == Some(ordinal)
  {
    var s := PodName(sts, ordinal);
    assert s[|sts|] == '-' && s[|sts|+1..] == Itoa(ordinal);
    AfterLastDashAt(s, |sts|);
    AtoiOfItoa(ordinal);
  }

  ghost predicate LastDashAt(s: string, i: int) {
    0 <= i < |s| && s[i] == '-' && '-' !in s[i+1..]
  }

  /** An ordinal is read exactly from names that end in a dash and a numeral for it. */
  lemma OrdinalReadExactly(podID: string, n: int)
    ensures PodOrdinal(podID) == Some(n) <==> exists i :: LastDashAt(podID, i) && Atoi(podID[i+1..]) == Some(n)
  {
    if '-' in podID {
      var i := LastDash(podID);
      assert LastDashAt(podID, i);
    } else {
      AfterLastDashNone(podID);
    }
    forall j | LastDashAt(podID, j) ensures AfterLastDash(podID) == podID[j+1..] {
      AfterLastDashAt(podID, j);
    }
  }

  lemma {:induction false} LastDash(s: string) returns (i: nat)
    requires '-' in s
    ensures i < |s| && s[i] == '-' && '-' !in s[i+1..]
  {
    if '-' in s[1..] {
      var j := LastDash(s[1..]);
      i := j + 1;
      assert s[1..][j+1..] == s[i+1..];
    } else {
      i := 0;
    }
  }
}
