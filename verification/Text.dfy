/** The string operations the model needs, with Python's meaning. */
module Text {
  /** str.isspace, which is also what the regular expressions' \s matches. */
  predicate IsSpace(c: char) {
    var n := c as int;
    || 9 <= n <= 13 || 28 <= n <= 32 || n == 0x85 || n == 0xA0 || n == 0x1680 || 0x2000 <= n <= 0x200A
    || n == 0x2028 || n == 0x2029 || n == 0x202F || n == 0x205F || n == 0x3000
  }

  function LStrip(s: string): (r: string)
    ensures |r| <= |s| && r == s[|s| - |r|..]
    ensures r == [] || !IsSpace(r[0])
    ensures forall i :: 0 <= i < |s| - |r| ==> IsSpace(s[i])
  {
    if s == [] || !IsSpace(s[0]) then s else LStrip(s[1..])
  }

  function RStrip(s: string): (r: string)
    ensures |r| <= |s| && r == s[..|r|]
    ensures r == [] || !IsSpace(r[|r| - 1])
    ensures forall i :: |r| <= i < |s| ==> IsSpace(s[i])
  {
    if s == [] || !IsSpace(s[|s| - 1]) then s else RStrip(s[..|s| - 1])
  }

  function Strip(s: string): string {
    LStrip(RStrip(s))
  }

  predicate EndsWith(s: string, suffix: string) {
    |suffix| <= |s| && s[|s| - |suffix|..] == suffix
  }

  predicate Blank(s: string) {
    forall i :: 0 <= i < |s| ==> IsSpace(s[i])
  }

  lemma StripIsEmptyExactlyWhenBlank(s: string)
    ensures Strip(s) == "" <==> Blank(s)
  {
    hide IsSpace, LStrip, RStrip;
    var r := RStrip(s);
    if Strip(s) == "" {
      forall i | 0 <= i < |s| ensures IsSpace(s[i]) {
        assert i < |r| ==> r[i] == s[i];
      }
    } else {
      assert r[|r| - 1] == s[|r| - 1];
    }
  }

  /** Stripping on the right reaches back exactly to the last non-space character. */
  lemma {:induction false} RStripAfter(prefix: string, s: string)
    requires RStrip(s) != []
    ensures RStrip(prefix + s) == prefix + RStrip(s)
  {
    if !IsSpace(s[|s| - 1]) {
      assert (prefix + s)[|prefix + s| - 1] == s[|s| - 1];
    } else {
      RStripAfter(prefix, s[..|s| - 1]);
      assert (prefix + s)[..|prefix + s| - 1] == prefix + s[..|s| - 1];
      assert (prefix + s)[|prefix + s| - 1] == s[|s| - 1];
    }
  }

  /** A text with no white space at either end. */
  predicate Trimmed(c: string) {
    c != "" ==> !IsSpace(c[0]) && !IsSpace(c[|c| - 1])
  }

  /** Stripping takes white space off both ends, and nothing else. */
  lemma StripParts(s: string) returns (a: string, b: string)
    ensures s == a + Strip(s) + b && Blank(a) && Blank(b) && Trimmed(Strip(s))
  {
    hide IsSpace, LStrip, RStrip;
    var r := RStrip(s);
    var c := LStrip(r);
    a, b := r[..|r| - |c|], s[|r|..];
    assert c != "" ==> c[|c| - 1] == r[|r| - 1];
  }

  lemma {:induction false} LStripIs(a: string, c: string)
    requires Blank(a) && (c != "" ==> !IsSpace(c[0]))
    ensures LStrip(a + c) == c
  {
    hide IsSpace;
    if a == "" {
      assert a + c == c;
    } else {
      assert (a + c)[0] == a[0] && (a + c)[1..] == a[1..] + c;
      LStripIs(a[1..], c);
    }
  }

  lemma {:induction false} RStripIs(c: string, b: string)
    requires Blank(b) && (c != "" ==> !IsSpace(c[|c| - 1]))
    ensures RStrip(c + b) == c
  {
    hide IsSpace;
    if b == "" {
      assert c + b == c;
    } else {
      var k := |b| - 1;
      assert (c + b)[|c| + k] == b[k] && (c + b)[..|c| + k] == c + b[..k];
      RStripIs(c, b[..k]);
    }
  }

  /** However the white space around it is divided, a trimmed text is what stripping leaves. */
  lemma StripIs(a: string, c: string, b: string)
    requires Blank(a) && Blank(b) && Trimmed(c)
    ensures Strip(a + c + b) == c
  {
    if c == "" {
      hide IsSpace, Strip;
      StripIsEmptyExactlyWhenBlank(a + c + b);
    } else {
      assert (a + c)[|a + c| - 1] == c[|c| - 1];
      hide IsSpace, LStrip, RStrip;
      RStripIs(a + c, b);
      LStripIs(a, c);
    }
  }

  // --- decimal rendering ----------------------------------------------------

  predicate IsDigit(c: char) {
    48 <= c as int <= 57
  }

  function Decimal(n: nat): (s: string)
    ensures s != [] && forall i :: 0 <= i < |s| ==> IsDigit(s[i])
  {
    var digit := [(48 + n % 10) as char];
    if n < 10 then digit else Decimal(n / 10) + digit
  }

  function Value(s: string): nat
    requires forall i :: 0 <= i < |s| ==> IsDigit(s[i])
  {
    if s == [] then 0 else
      assert IsDigit(s[|s| - 1]);
      10 * Value(s[..|s| - 1]) + (s[|s| - 1] as int - 48)
  }

  lemma {:induction false} ValueOfDecimal(n: nat)
    ensures Value(Decimal(n)) == n
  {
    if n >= 10 {
      ValueOfDecimal(n / 10);
      assert Decimal(n)[..|Decimal(n)| - 1] == Decimal(n / 10);
    } else {
      assert Decimal(n)[..0] == [];
    }
  }

  function Zeros(k: nat): (s: string)
    ensures |s| == k && forall i :: 0 <= i < k ==> s[i] == '0'
  {
    seq(k, _ => '0')
  }

  /** Python's `:08d`: at least eight digits, never truncated. */
  function Padded(n: nat): (s: string)
    ensures forall i :: 0 <= i < |s| ==> IsDigit(s[i])
  {
    var d := Decimal(n);
    if |d| < 8 then Zeros(8 - |d|) + d else d
  }

  lemma {:induction false} ValueOfZeros(k: nat)
    ensures Value(Zeros(k)) == 0
  {
    if k > 0 {
      ValueOfZeros(k - 1);
      assert Zeros(k)[..k - 1] == Zeros(k - 1);
    }
  }

  lemma {:induction false} LeadingZeros(k: nat, s: string)
    requires forall i :: 0 <= i < |s| ==> IsDigit(s[i])
    ensures Value(Zeros(k) + s) == Value(s)
  {
    if s == [] {
      assert Zeros(k) + s == Zeros(k);
      ValueOfZeros(k);
    } else {
      LeadingZeros(k, s[..|s| - 1]);
      assert (Zeros(k) + s)[..|Zeros(k) + s| - 1] == Zeros(k) + s[..|s| - 1];
    }
  }

  /** A padded number has at least eight digits, no zero more than it needs, and reads back. */
  lemma PaddedReadsBack(n: nat)
    ensures Value(Padded(n)) == n && |Padded(n)| == if |Decimal(n)| < 8 then 8 else |Decimal(n)|
  {
    ValueOfDecimal(n);
    LeadingZeros(if |Decimal(n)| < 8 then 8 - |Decimal(n)| else 0, Decimal(n));
  }

  /** So distinct numbers never render alike. */
  lemma PaddedIsInjective(m: nat, n: nat)
    requires Padded(m) == Padded(n)
    ensures m == n
  {
    hide Padded;
    PaddedReadsBack(m);
    PaddedReadsBack(n);
  }

  // --- joining --------------------------------------------------------------

  function Join(separator: string, pieces: seq<string>): string {
    if pieces == [] then ""
    else if |pieces| == 1 then pieces[0]
    else Join(separator, pieces[..|pieces| - 1]) + separator + pieces[|pieces| - 1]
  }

  /** The first piece can be taken off instead of the last. */
  lemma {:induction false} JoinBehind(separator: string, first: string, pieces: seq<string>)
    requires pieces != []
    ensures Join(separator, [first] + pieces) == first + separator + Join(separator, pieces)
  {
    var all := [first] + pieces;
    if |pieces| == 1 {
      assert all[..1] == [first];
    } else {
      var init := pieces[..|pieces| - 1];
      assert all[..|all| - 1] == [first] + init;
      JoinBehind(separator, first, init);
    }
  }

  lemma Regroup<T>(x: seq<T>, y: seq<T>, z: seq<T>)
    ensures x + y + z == x + (y + z)
  {
  }
}
