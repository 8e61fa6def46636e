/**
 * The two string operations the search filter uses: String.prototype.toLowerCase
 * and String.prototype.includes.
 */
module Text {

  /**
   * toLowerCase on one character, for the scripts venue names and addresses use:
   * ASCII capitals and the Cyrillic capitals U+0400..U+042F (including Ё).
   */
  function LowerChar(c: char): char {
    if 'A' <= c <= 'Z' then (c as int + 32) as char
    else if 'А' <= c <= 'Я' then (c as int + 0x20) as char
    else if '\U{0400}' <= c <= '\U{040F}' then (c as int + 0x50) as char
    else c
  }

  /** toLowerCase: no capital is left, and every other character is kept in place. */
  function Lower(s: string): (r: string)
    ensures |r| == |s|
    ensures forall i :: 0 <= i < |r| ==> LowerChar(r[i]) == r[i]
    ensures forall i :: 0 <= i < |s| && LowerChar(s[i]) == s[i] ==> r[i] == s[i]
  {
    seq(|s|, i requires 0 <= i < |s| => LowerChar(s[i]))
  }

  /** Lower-casing twice is lower-casing once. */
  lemma LowerIdempotent(s: string)
    ensures Lower(Lower(s)) == Lower(s)
  {
    forall i | 0 <= i < |s|
      ensures Lower(Lower(s))[i] == Lower(s)[i]
    {
      var c := s[i];
      assert Lower(s)[i] == LowerChar(c);
    }
  }

  /** Lower-casing commutes with taking a slice. */
  lemma LowerSlice(s: string, i: nat, j: nat)
    requires i <= j <= |s|
    ensures Lower(s)[i..j] == Lower(s[i..j])
  {
  }

  /** needle occurs in hay starting at index i. */
  predicate OccursAt(hay: string, needle: string, i: nat) {
    i + |needle| <= |hay| && hay[i..i + |needle|] == needle
  }

  /** `hay.includes(needle)`: true for the empty needle, as in JavaScript. */
  predicate Contains(hay: string, needle: string)
    ensures needle == [] ==> Contains(hay, needle)
    ensures Contains(hay, needle) ==> |needle| <= |hay|
    decreases |hay|
  {
    OccursAt(hay, needle, 0) || (|hay| > 0 && Contains(hay[1..], needle))
  }

  /** Contains agrees with the positional definition of a substring. */
  lemma {:induction false} ContainsIff(hay: string, needle: string)
    ensures Contains(hay, needle) <==> exists i: nat :: OccursAt(hay, needle, i)
    decreases |hay|
  {
    if |hay| > 0 {
      ContainsIff(hay[1..], needle);
      if exists i: nat :: OccursAt(hay[1..], needle, i) {
        var i: nat :| OccursAt(hay[1..], needle, i);
        assert hay[1..][i..i + |needle|] == hay[i + 1..i + 1 + |needle|];
        assert OccursAt(hay, needle, i + 1);
      }
      if exists i: nat :: OccursAt(hay, needle, i) {
        var i: nat :| OccursAt(hay, needle, i);
        if i > 0 {
          assert hay[1..][i - 1..i - 1 + |needle|] == hay[i..i + |needle|];
          assert OccursAt(hay[1..], needle, i - 1);
        }
      }
    } else {
      if exists i: nat :: OccursAt(hay, needle, i) {
        var i: nat :| OccursAt(hay, needle, i);
        assert i == 0;
      }
    }
  }

  /** A substring stays a substring once both strings are lower-cased. */
  lemma LowerKeepsSubstring(hay: string, needle: string)
    ensures Contains(hay, needle) ==> Contains(Lower(hay), Lower(needle))
  {
    if !Contains(hay, needle) {
      return;
    }
    ContainsIff(hay, needle);
    var i: nat :| OccursAt(hay, needle, i);
    LowerSlice(hay, i, i + |needle|);
    assert OccursAt(Lower(hay), Lower(needle), i);
    ContainsIff(Lower(hay), Lower(needle));
  }

  /** A string in which character ch does not appear does not contain [ch]. */
  lemma {:induction false} NotContainsChar(hay: string, ch: char)
    requires forall k :: 0 <= k < |hay| ==> hay[k] != ch
    ensures !Contains(hay, [ch])
  {
    forall i: nat | i + 1 <= |hay|
      ensures !OccursAt(hay, [ch], i)
    {
      assert hay[i..i + 1] == [hay[i]];
    }
    ContainsIff(hay, [ch]);
  }

  /** Lower-casing a concatenation lower-cases each part. */
  lemma LowerConcat(a: string, b: string)
    ensures Lower(a + b) == Lower(a) + Lower(b)
  {
  }

  /** A string found in the middle part of a concatenation is found in the whole. */
  lemma ContainsInMiddle(a: string, m: string, b: string, needle: string)
    ensures Contains(m, needle) ==> Contains(a + m + b, needle)
  {
    if Contains(m, needle) {
      ContainsIff(m, needle);
      var i: nat :| OccursAt(m, needle, i);
      assert (a + m + b)[|a| + i..|a| + i + |needle|] == m[i..i + |needle|];
      assert OccursAt(a + m + b, needle, |a| + i);
      ContainsIff(a + m + b, needle);
    }
  }
}
