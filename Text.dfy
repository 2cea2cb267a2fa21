/**
 * Strings as sequences of characters, and the few string operations the
 * client relies on: ASCII lower-casing (`toLowerCase`), substring search
 * (`includes`), `Array.prototype.join`, and the decimal text that
 * `FormData.append` produces for an integer.
 */
module Text {
  import opened Wrappers

  type String = seq<char>

  predicate IsUpper(c: char) {
    'A' <= c <= 'Z'
  }

  function LowerChar(c: char): char {
    if IsUpper(c) then (c as int - 'A' as int + 'a' as int) as char else c
  }

  /** `s.toLowerCase()`, restricted to ASCII case folding. */
  function Lower(s: String): (r: String)
    ensures |r| == |s|
    ensures forall i :: 0 <= i < |s| ==> r[i] == LowerChar(s[i])
    ensures forall i :: 0 <= i < |r| ==> !IsUpper(r[i])
  {
    if s == [] then [] else [LowerChar(s[0])] + Lower(s[1..])
  }

  /** Folding an already folded string changes nothing. */
  lemma {:induction false} LowerIdempotent(s: String)
    ensures Lower(Lower(s)) == Lower(s)
  {
    var l := Lower(s);
    assert forall i :: 0 <= i < |l| ==> LowerChar(l[i]) == l[i];
  }

  /** `pat` occurs in `text` starting at index `i`. */
  predicate OccursAt(text: String, pat: String, i: int) {
    0 <= i && i + |pat| <= |text| && text[i..i + |pat|] == pat
  }

  /** `pat` occurs in `text` at some index. */
  ghost predicate OccursIn(text: String, pat: String) {
    exists i :: OccursAt(text, pat, i)
  }

  /** `text.includes(pat)`: `pat` is a prefix of some suffix of `text`. */
  predicate Contains(text: String, pat: String)
    ensures pat == [] ==> Contains(text, pat)
    ensures Contains(text, pat) ==> |pat| <= |text|
    decreases |text|
  {
    pat <= text || (|text| > 0 && Contains(text[1..], pat))
  }

  /** `includes` holds exactly when the pattern occurs at some index. */
  lemma {:induction false} ContainsIff(text: String, pat: String)
    ensures Contains(text, pat) <==> OccursIn(text, pat)
    decreases |text|
  {
    if pat <= text {
      assert OccursAt(text, pat, 0);
    } else if |text| == 0 {
      assert pat != [];
      forall i | OccursAt(text, pat, i) ensures false { }
    } else {
      ContainsIff(text[1..], pat);
      assert !OccursAt(text, pat, 0);
      forall j ensures OccursAt(text[1..], pat, j) <==> OccursAt(text, pat, j + 1) {
        if 0 <= j && j + |pat| <= |text[1..]| {
          assert text[1..][j..j + |pat|] == text[j + 1..j + 1 + |pat|];
        }
      }
      if OccursIn(text, pat) {
        var i :| OccursAt(text, pat, i);
        assert OccursAt(text[1..], pat, i - 1);
      }
    }
  }

  /** `tags.join(sep)`. */
  function Join(tags: seq<String>, sep: String): (r: String)
    ensures |tags| == 0 ==> r == []
    ensures |tags| == 1 ==> r == tags[0]
  {
    if |tags| == 0 then []
    else if |tags| == 1 then tags[0]
    else tags[0] + sep + Join(tags[1..], sep)
  }

  function TotalLength(tags: seq<String>): nat {
    if tags == [] then 0 else |tags[0]| + TotalLength(tags[1..])
  }

  /** The joined text is as long as all tags plus one separator between each two. */
  lemma {:induction false} JoinLength(tags: seq<String>, sep: String)
    requires |tags| > 0
    ensures |Join(tags, sep)| == TotalLength(tags) + (|tags| - 1) * |sep|
  {
    if |tags| > 1 {
      JoinLength(tags[1..], sep);
    }
  }

  /** Joining one more tag appends the separator and that tag, so the tags appear in order. */
  lemma {:induction false} JoinSnoc(tags: seq<String>, t: String, sep: String)
    requires |tags| > 0
    ensures Join(tags + [t], sep) == Join(tags, sep) + sep + t
    decreases |tags|
  {
    assert (tags + [t])[1..] == tags[1..] + [t];
    if |tags| > 1 {
      JoinSnoc(tags[1..], t, sep);
    }
  }

  /** With a non-empty separator the join is empty only for no tags or one empty tag. */
  lemma {:induction false} JoinEmptyIff(tags: seq<String>, sep: String)
    requires sep != []
    ensures Join(tags, sep) == [] <==> |tags| == 0 || (|tags| == 1 && tags[0] == [])
  {
    if |tags| > 1 {
      assert |Join(tags, sep)| >= |sep|;
    }
  }

  predicate IsDigit(c: char) {
    '0' <= c <= '9'
  }

  predicate AllDigits(s: String) {
    forall i :: 0 <= i < |s| ==> IsDigit(s[i])
  }

  function DigitChar(d: nat): char
    requires d < 10
  {
    ('0' as int + d) as char
  }

  /** The shortest decimal numeral for `n`. */
  function NatToDecimal(n: nat): (s: String)
    ensures |s| > 0 && AllDigits(s)
    ensures |s| > 1 ==> s[0] != '0'
  {
    if n < 10 then [DigitChar(n)] else NatToDecimal(n / 10) + [DigitChar(n % 10)]
  }

  /** `String(n)` for an integer `n`: a minus sign, then the decimal numeral of `|n|`. */
  function IntToDecimal(n: int): (s: String)
    ensures |s| > 0
    ensures n >= 0 ==> AllDigits(s)
    ensures n < 0 ==> s[0] == '-' && |s| > 1 && AllDigits(s[1..])
  {
    if n < 0 then ['-'] + NatToDecimal(-n) else NatToDecimal(n)
  }

  /** The value of a numeral, most significant digit first. */
  function DigitsValue(s: String): nat
    requires AllDigits(s)
  {
    if s == [] then 0 else 10 * DigitsValue(s[..|s| - 1]) + (s[|s| - 1] as int - '0' as int)
  }

  /** Reads an optionally signed decimal integer; anything else is `None`. */
  function ParseInt(s: String): Option<int> {
    if |s| > 1 && s[0] == '-' && AllDigits(s[1..]) then Some(0 - DigitsValue(s[1..]) as int)
    else if |s| > 0 && AllDigits(s) then Some(DigitsValue(s))
    else None
  }

  lemma {:induction false} NatToDecimalValue(n: nat)
    ensures DigitsValue(NatToDecimal(n)) == n
  {
    if n >= 10 {
      NatToDecimalValue(n / 10);
      var s := NatToDecimal(n);
      assert s[..|s| - 1] == NatToDecimal(n / 10);
    }
  }

  /** Reading back the decimal text of any integer gives the integer. */
  lemma DecimalRoundTrip(n: int)
    ensures ParseInt(IntToDecimal(n)) == Some(n)
  {
    if n < 0 {
      NatToDecimalValue(-n);
      assert IntToDecimal(n)[1..] == NatToDecimal(-n);
    } else {
      NatToDecimalValue(n);
    }
  }
}
