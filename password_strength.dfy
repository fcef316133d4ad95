/**
 * The password strength meter: `getStrength` scores a password by four
 * independent criteria, and the score selects a label, a bar colour and a
 * bar width.
 */
module PasswordStrength {
  import opened JsString

  /** `/[A-Z]/`: only ASCII capitals count. */
  predicate IsUpper(c: char) { 'A' <= c <= 'Z' }

  /** `/[0-9]/`. */
  predicate IsDigit(c: char) { '0' <= c <= '9' }

  /** `/[^A-Za-z0-9]/`: everything but ASCII letters and digits is a symbol. */
  predicate IsSymbol(c: char) { !('A' <= c <= 'Z' || 'a' <= c <= 'z' || '0' <= c <= '9') }

  /** `password.length >= 8`, where `length` counts UTF-16 code units. */
  predicate LongEnough(password: string) { Utf16Length(password) >= 8 }

  predicate HasUpper(password: string) { exists i :: 0 <= i < |password| && IsUpper(password[i]) }
  predicate HasDigit(password: string) { exists i :: 0 <= i < |password| && IsDigit(password[i]) }
  predicate HasSymbol(password: string) { exists i :: 0 <= i < |password| && IsSymbol(password[i]) }

  function Indicator(b: bool): nat { if b then 1 else 0 }

  /** The strength of a password: how many of the four criteria it meets. */
  function Score(password: string): (n: nat)
    ensures n <= 4
  {
    Indicator(LongEnough(password)) + Indicator(HasUpper(password)) +
    Indicator(HasDigit(password)) + Indicator(HasSymbol(password))
  }

  /** `getStrength`: a counter bumped once per criterion that holds. */
  method GetStrength(password: string) returns (score: nat)
    ensures score == Score(password)
    ensures 0 <= score <= 4
    ensures score == 4 <==> LongEnough(password) && HasUpper(password) && HasDigit(password) && HasSymbol(password)
    ensures score == 0 <==> !LongEnough(password) && !HasUpper(password) && !HasDigit(password) && !HasSymbol(password)
  {
    score := 0;
    if Utf16Length(password) >= 8 { score := score + 1; }
    if HasUpper(password) { score := score + 1; }
    if HasDigit(password) { score := score + 1; }
    if HasSymbol(password) { score := score + 1; }
  }

  /** The empty password meets no criterion. */
  lemma EmptyScoresZero()
    ensures Score("") == 0
  {
  }

  /** Appending a character never lowers the score: every criterion is a length bound or a "contains" test. */
  lemma ScoreMonotone(password: string, c: char)
    ensures Score(password) <= Score(password + [c])
  {
    var longer := password + [c];
    Utf16LengthAppend(password, c);
    if HasUpper(password) {
      var i :| 0 <= i < |password| && IsUpper(password[i]);
      assert longer[i] == password[i];
    }
    if HasDigit(password) {
      var i :| 0 <= i < |password| && IsDigit(password[i]);
      assert longer[i] == password[i];
    }
    if HasSymbol(password) {
      var i :| 0 <= i < |password| && IsSymbol(password[i]);
      assert longer[i] == password[i];
    }
  }

  /**
   * A one-character password that is not an ASCII letter or digit (a space,
   * an accented or non-Latin capital) scores exactly one, as a symbol and
   * never as an uppercase letter.
   */
  lemma NonAsciiCountsAsSymbol(c: char)
    requires !('A' <= c <= 'Z' || 'a' <= c <= 'z' || '0' <= c <= '9')
    ensures HasSymbol([c]) && !HasUpper([c])
    ensures Score([c]) == 1
  {
    assert [c][0] == c;
  }

  const Labels: seq<string> := ["Very Weak", "Weak", "Fair", "Good", "Strong"]
  const Colors: seq<string> := ["bg-red-500", "bg-orange-500", "bg-yellow-500", "bg-blue-500", "bg-green-500"]

  /** `[...][strength] || "Very Weak"`: an index outside the table falls back to the first label. */
  function StrengthLabel(strength: int): (text: string)
    ensures 0 <= strength < |Labels| ==> text == Labels[strength]
    ensures text == "Strong" <==> strength == 4
    ensures text == "Very Weak" <==> strength <= 0 || strength > 4
  {
    if 0 <= strength < |Labels| then Labels[strength] else "Very Weak"
  }

  /** `colors[strength]`. */
  function BarColor(strength: nat): (color: string)
    requires strength < |Colors|
    ensures color in Colors
    ensures color == "bg-green-500" <==> strength == 4
    ensures color == "bg-red-500" <==> strength == 0
  {
    Colors[strength]
  }

  /** `(strength / 4) * 100` percent; exact for the scores 0..4. */
  function BarWidth(strength: nat): (percent: nat)
    requires strength <= 4
    ensures percent * 4 == strength * 100
    ensures percent in {0, 25, 50, 75, 100}
  {
    strength * 25
  }

  datatype Meter = Meter(caption: string, color: string, widthPercent: nat)

  /** What `PasswordStrengthMeter` renders for a password. */
  function Render(password: string): (m: Meter)
    ensures m.caption in Labels && m.color in Colors
    ensures m.caption == "Strong" <==> Score(password) == 4
    ensures m.color == Colors[Score(password)]
    ensures m.widthPercent == 100 <==> Score(password) == 4
    ensures m.widthPercent == 0 <==> Score(password) == 0
  {
    var strength := Score(password);
    Meter(StrengthLabel(strength), BarColor(strength), BarWidth(strength))
  }
}
