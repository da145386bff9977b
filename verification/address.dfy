/** The dashboard's miner-address check (`isValidIP`, script.js): a purely
    syntactic dotted-quad test. The regular expression
    `^(\d{1,3}\.){3}\d{1,3}$` is written out as a scanner over digit runs,
    followed by the per-part `parseInt(part) <= 255` test. */
module Address {
  import opened Text

  /** The length of the run of ASCII digits that starts `s`. */
  function LeadingDigits(s: string): (n: nat)
    ensures n <= |s| && AllDigits(s[..n])
    ensures n < |s| ==> !IsDigit(s[n])
    decreases |s|
  {
    if |s| > 0 && IsDigit(s[0]) then
      var n := 1 + LeadingDigits(s[1..]);
      assert s[..n] == [s[0]] + s[1..][..n - 1];
      n
    else 0
  }

  /** The regular expression `(\d{1,3}\.){g-1}\d{1,3}$` anchored at the start
      of `s`. Since digits and dots are disjoint, each `\d{1,3}` must take the
      whole digit run in front of it, so no backtracking is needed. */
  predicate MatchGroups(s: string, g: nat)
    requires g >= 1
    decreases g
  {
    var n := LeadingDigits(s);
    && 1 <= n <= 3
    && if g == 1 then n == |s|
       else n < |s| && s[n] == '.' && MatchGroups(s[n + 1..], g - 1)
  }

  /** `pattern.test(ip)` for the four-group pattern. */
  predicate MatchesPattern(ip: string) {
    MatchGroups(ip, 4)
  }

  /** `parseInt(part)` lies in [0, 255]; for a part that does not begin with
      a digit `parseInt` yields NaN and both comparisons fail. */
  predicate OctetInRange(part: string) {
    var n := LeadingDigits(part);
    n > 0 && DigitsValue(part[..n]) <= 255
  }

  /** `isValidIP(ip)` (script.js:831-840). */
  predicate IsValidIP(ip: string) {
    MatchesPattern(ip) &&
    var parts := Split(ip, '.');
    forall i :: 0 <= i < |parts| ==> OctetInRange(parts[i])
  }

  // ---------------------------------------------------------------------
  // The reference definition: four dot-separated octets
  // ---------------------------------------------------------------------

  /** One to three ASCII digits. */
  predicate IsDigitGroup(p: string) {
    1 <= |p| <= 3 && AllDigits(p)
  }

  /** A digit group whose value is at most 255 (leading zeros allowed). */
  predicate IsOctet(p: string) {
    IsDigitGroup(p) && DigitsValue(p) <= 255
  }

  /** Exactly four dot-separated parts, each an octet. */
  predicate IsDottedQuad(s: string) {
    var parts := Split(s, '.');
    |parts| == 4 && forall i :: 0 <= i < 4 ==> IsOctet(parts[i])
  }

  /** Every part is a group of one to three digits. */
  predicate AllDigitGroups(parts: seq<string>) {
    forall i :: 0 <= i < |parts| ==> IsDigitGroup(parts[i])
  }

  /** A digit run that ends at a non-digit (or at the end) is the leading run. */
  lemma {:induction false} LeadingDigitsAt(s: string, k: nat)
    requires k <= |s| && AllDigits(s[..k])
    requires k < |s| ==> !IsDigit(s[k])
    ensures LeadingDigits(s) == k
    decreases k
  {
    if k > 0 {
      assert IsDigit(s[..k][0]);
      assert s[1..][..k - 1] == s[..k][1..];
      LeadingDigitsAt(s[1..], k - 1);
    }
  }

  /** Without a dot, the pattern accepts only a single digit group. */
  lemma MatchGroupsNoDot(s: string, g: nat)
    requires g >= 1 && '.' !in s
    ensures MatchGroups(s, g) <==> g == 1 && IsDigitGroup(s)
  {
    var n := LeadingDigits(s);
    if AllDigits(s) {
      LeadingDigitsAt(s, |s|);
    }
    if g == 1 && MatchGroups(s, g) {
      assert s[..n] == s;
    }
  }

  /** With a dot at `i` (the first one), the pattern with `g > 1` groups
      accepts exactly a digit group before `i` followed by `g - 1` groups. */
  lemma MatchGroupsFirstDot(s: string, g: nat)
    requires g > 1 && '.' in s
    ensures var i := IndexOf(s, '.');
      MatchGroups(s, g) <==> IsDigitGroup(s[..i]) && MatchGroups(s[i + 1..], g - 1)
  {
    var i := IndexOf(s, '.');
    var n := LeadingDigits(s);
    if MatchGroups(s, g) {
      assert '.' !in s[..n] by {
        forall j | 0 <= j < n ensures s[..n][j] != '.' {
          assert IsDigit(s[..n][j]);
        }
      }
      assert i == n;
    }
    if IsDigitGroup(s[..i]) {
      LeadingDigitsAt(s, i);
    }
  }

  /** With a dot, the pattern with a single group rejects. */
  lemma MatchOneGroupDot(s: string)
    requires '.' in s
    ensures !MatchGroups(s, 1)
  {
    var i := IndexOf(s, '.');
    assert !IsDigit(s[i]);
  }

  /** A digit group in front of more parts: all are groups iff each side is. */
  lemma AllDigitGroupsCons(p: string, rest: seq<string>)
    ensures AllDigitGroups([p] + rest) <==> IsDigitGroup(p) && AllDigitGroups(rest)
  {
    var ps := [p] + rest;
    if AllDigitGroups(ps) {
      assert IsDigitGroup(ps[0]);
      forall j | 0 <= j < |rest| ensures IsDigitGroup(rest[j]) {
        assert rest[j] == ps[j + 1];
      }
    }
  }

  /** The propositional step that combines the first group with the rest. */
  lemma Combine(all: bool, tail: bool, head: bool, groups: bool, restGroups: bool,
                count: int, restCount: int, g: int)
    requires all <==> head && tail
    requires tail <==> restCount == g - 1 && restGroups
    requires groups <==> head && restGroups
    requires count == restCount + 1
    ensures all <==> count == g && groups
  {
  }

  /** The pattern with `g` groups accepts exactly the strings whose split on
      '.' has `g` parts, each a group of one to three digits. */
  predicate SplitAgrees(s: string, g: nat)
    requires g >= 1
  {
    MatchGroups(s, g) <==> |Split(s, '.')| == g && AllDigitGroups(Split(s, '.'))
  }

  lemma {:induction false} MatchGroupsIffSplit(s: string, g: nat)
    requires g >= 1
    ensures SplitAgrees(s, g)
    decreases g
  {
    if '.' in s && g >= 2 {
      MatchGroupsIffSplit(s[IndexOf(s, '.') + 1..], g - 1);
      FirstGroupSplit(s, g);
    } else {
      BaseSplit(s, g);
    }
  }

  /** No dot, or a single group. */
  lemma BaseSplit(s: string, g: nat)
    requires g >= 1 && ('.' !in s || g == 1)
    ensures SplitAgrees(s, g)
  {
    if '.' !in s {
      NoDotSplit(s, g);
    } else {
      OneGroupSplit(s);
    }
  }

  /** Without a dot, the split is the whole string. */
  lemma NoDotSplit(s: string, g: nat)
    requires g >= 1 && '.' !in s
    ensures SplitAgrees(s, g)
  {
    assert Split(s, '.') == [s];
    AllDigitGroupsCons(s, []);
    MatchGroupsNoDot(s, g);
  }

  /** One group never matches a string with a dot, which splits in two or
      more parts. */
  lemma OneGroupSplit(s: string)
    requires '.' in s
    ensures SplitAgrees(s, 1)
  {
    MatchOneGroupDot(s);
  }

  /** The inductive step: the first group, then the rest after the dot. */
  lemma FirstGroupSplit(s: string, g: nat)
    requires g >= 2 && '.' in s
    requires SplitAgrees(s[IndexOf(s, '.') + 1..], g - 1)
    ensures SplitAgrees(s, g)
  {
    var i := IndexOf(s, '.');
    var head, tail := s[..i], s[i + 1..];
    var rest := Split(tail, '.');
    MatchGroupsFirstDot(s, g);
    AllDigitGroupsCons(head, rest);
    assert Split(s, '.') == [head] + rest;
    Combine(MatchGroups(s, g), MatchGroups(tail, g - 1), IsDigitGroup(head),
            AllDigitGroups([head] + rest), AllDigitGroups(rest), |[head] + rest|, |rest|, g);
  }

  /** `isValidIP` holds exactly for four dot-separated groups of one to three
      ASCII digits whose values are at most 255: a wrong number of groups, a
      non-digit character or an octet above 255 is rejected. */
  lemma IsValidIPIffDottedQuad(ip: string)
    ensures IsValidIP(ip) <==> IsDottedQuad(ip)
  {
    var parts := Split(ip, '.');
    MatchGroupsIffSplit(ip, 4);
    if MatchesPattern(ip) {
      assert AllDigitGroups(parts);
      forall i | 0 <= i < 4 ensures OctetInRange(parts[i]) <==> IsOctet(parts[i]) {
        LeadingDigitsAt(parts[i], |parts[i]|);
        assert parts[i][..|parts[i]|] == parts[i];
      }
    }
    if IsDottedQuad(ip) {
      assert forall i :: 0 <= i < 4 ==> IsDigitGroup(parts[i]);
    }
  }

  /** A number below 1000 is written with at most three digits. */
  lemma DecimalShort(n: nat)
    requires n < 1000
    ensures |Decimal(n)| <= 3
  {
    if n >= 10 {
      assert |Decimal(n / 10)| <= 2 by {
        if n / 10 >= 10 {
          assert |Decimal(n / 10 / 10)| == 1;
        }
      }
    }
  }

  /** The numeral of a number in [0, 255] is an octet and holds no dot. */
  lemma NumeralIsOctet(n: nat)
    requires n <= 255
    ensures IsOctet(Decimal(n)) && '.' !in Decimal(n)
  {
    DecimalShort(n);
    DecimalRoundTrip(n);
    var s := Decimal(n);
    assert forall j :: 0 <= j < |s| ==> IsDigit(s[j]);
  }

  /** Four octets joined with dots form a valid address. */
  lemma JoinedOctetsAreValid(parts: seq<string>)
    requires |parts| == 4
    requires forall i :: 0 <= i < 4 ==> IsOctet(parts[i]) && '.' !in parts[i]
    ensures IsValidIP(Join(parts, '.'))
  {
    var ip := Join(parts, '.');
    SplitJoin(parts, '.');
    assert IsDottedQuad(ip);
    IsValidIPIffDottedQuad(ip);
  }

  /** The decimal numerals of a sequence of numbers. */
  function Numerals(ns: seq<nat>): (parts: seq<string>)
    ensures |parts| == |ns|
    ensures forall i :: 0 <= i < |ns| ==> parts[i] == Decimal(ns[i])
  {
    seq(|ns|, i requires 0 <= i < |ns| => Decimal(ns[i]))
  }

  /** Writing four numbers in [0, 255] in decimal and joining them with dots
      always gives an address `isValidIP` accepts. */
  lemma FormattedAddressIsValid(ns: seq<nat>)
    requires |ns| == 4 && forall i :: 0 <= i < 4 ==> ns[i] <= 255
    ensures IsValidIP(Join(Numerals(ns), '.'))
  {
    var parts := Numerals(ns);
    forall i | 0 <= i < 4 ensures IsOctet(parts[i]) && '.' !in parts[i] {
      NumeralIsOctet(ns[i]);
    }
    JoinedOctetsAreValid(parts);
  }
}
