/**
 * The rating shown on a marker: extracted from the free-text description with
 * the regular expression `\d\.\d|\d`, and banded into one of three star icons.
 * Ratings are kept as whole tenths of a point (45 stands for 4.5), which is
 * exact for every value the expression can match.
 */
module Rating {

  /** A rating in tenths: the expression matches at most "9.9". */
  type Tenths = r: int | 0 <= r <= 99

  /** `\d`: the ASCII digits 0-9 only. */
  predicate IsDigit(c: char) {
    '0' <= c <= '9'
  }

  function DigitValue(c: char): int
    requires IsDigit(c)
  {
    c as int - '0' as int
  }

  /** The first alternative `\d\.\d` matches at the digit s[i]. */
  predicate HasDecimalAt(s: string, i: nat)
    requires i < |s|
  {
    i + 2 < |s| && s[i + 1] == '.' && IsDigit(s[i + 2])
  }

  /** parseFloat of the match that starts at the digit s[i], in tenths. */
  function ValueAt(s: string, i: nat): Tenths
    requires i < |s| && IsDigit(s[i])
  {
    if HasDecimalAt(s, i) then 10 * DigitValue(s[i]) + DigitValue(s[i + 2])
    else 10 * DigitValue(s[i])
  }

  /** s[i] is the first digit of s at or after position k. */
  ghost predicate FirstDigitFrom(s: string, k: nat, i: nat) {
    k <= i < |s| && IsDigit(s[i]) && forall j :: k <= j < i ==> !IsDigit(s[j])
  }

  /** s has no digit at or after position k. */
  ghost predicate NoDigitFrom(s: string, k: nat) {
    forall j :: k <= j < |s| ==> !IsDigit(s[j])
  }

  /**
   * Scans for the leftmost position where the expression matches: the value of
   * the first digit from position k on, or 0 when there is none.
   */
  function RatingFrom(s: string, k: nat): (r: Tenths)
    requires k <= |s|
    ensures (exists i :: FirstDigitFrom(s, k, i) && r == ValueAt(s, i)) || (NoDigitFrom(s, k) && r == 0)
    decreases |s| - k
  {
    if k == |s| then 0
    else if IsDigit(s[k]) then ValueAt(s, k)
    else RatingFrom(s, k + 1)
  }

  /**
   * The rating createPlacemark derives from a description: the value of the
   * match at its first digit, or 0 when the description has no digit.
   */
  function ExtractRating(description: string): (r: Tenths)
    ensures (exists i :: FirstDigitAt(description, i) && r == ValueAt(description, i))
         || (NoDigitFrom(description, 0) && r == 0)
  {
    RatingFrom(description, 0)
  }

  /** The digit s[i] is the first digit of s. */
  ghost predicate FirstDigitAt(s: string, i: nat) {
    i < |s| && IsDigit(s[i]) && forall j :: 0 <= j < i ==> !IsDigit(s[j])
  }

  /**
   * The leftmost match wins: the rating is the first digit of the description,
   * with one decimal only when that digit is followed by '.' and a digit.
   */
  lemma FirstDigitDecides(s: string, i: nat)
    requires FirstDigitAt(s, i)
    ensures ExtractRating(s) == ValueAt(s, i)
    ensures ExtractRating(s) / 10 == DigitValue(s[i])
    ensures ExtractRating(s) % 10 == if HasDecimalAt(s, i) then DigitValue(s[i + 2]) else 0
  {
  }

  /** A description without any digit yields the rating 0. */
  lemma NoDigitGivesZero(s: string)
    requires forall j :: 0 <= j < |s| ==> !IsDigit(s[j])
    ensures ExtractRating(s) == 0
  {
  }

  /** A nonzero rating always comes from a digit that is in the description. */
  lemma NonzeroRatingHasDigit(s: string)
    requires ExtractRating(s) != 0
    ensures exists i :: FirstDigitAt(s, i)
  {
  }

  /** "10" is read as 1.0 and "3." as 3: one digit unless '.' and a digit follow. */
  lemma ExtractRatingWholeExamples()
    ensures ExtractRating("10") == 10
    ensures ExtractRating("3.") == 30
  {
    FirstDigitDecides("10", 0);
    FirstDigitDecides("3.", 0);
  }

  /** "4.5" is read as 4.5; text before the first digit is skipped. */
  lemma ExtractRatingDecimalExamples()
    ensures ExtractRating("4.5") == 45
    ensures ExtractRating("a.5") == 50
  {
    FirstDigitDecides("4.5", 0);
    FirstDigitDecides("a.5", 2);
  }

  lemma ExtractRatingTextExamples()
    ensures ExtractRating("Рейтинг: 4.7/5") == 47
    ensures ExtractRating("нет") == 0
  {
    FirstDigitDecides("Рейтинг: 4.7/5", 9);
    NoDigitGivesZero("нет");
  }

  /** The three marker icons of getIconByRating. */
  datatype Icon = Green | Yellow | Red

  function Href(icon: Icon): string {
    match icon
    case Green => "icons/star-green.png"
    case Yellow => "icons/star-yellow.png"
    case Red => "icons/star-red.png"
  }

  /** Colour band of a rating given in tenths: at least 4 is green, at least 3 yellow. */
  function IconByRating(rating: int): (icon: Icon)
    ensures icon == Green <==> rating >= 40
    ensures icon == Yellow <==> 30 <= rating < 40
    ensures icon == Red <==> rating < 30
  {
    if rating >= 40 then Green
    else if rating >= 30 then Yellow
    else Red
  }

  /** Red < Yellow < Green. */
  function Rank(icon: Icon): nat {
    match icon
    case Red => 0
    case Yellow => 1
    case Green => 2
  }

  /** A higher rating never gets a worse icon. */
  lemma IconByRatingMonotone(a: int, b: int)
    requires a <= b
    ensures Rank(IconByRating(a)) <= Rank(IconByRating(b))
  {
  }
}
