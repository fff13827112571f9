/**
 * What the data-annotation attributes used on the clinic's models accept,
 * one predicate per attribute, as `Validator.TryValidateObject` applies them.
 * An absent (null) value passes every attribute except `[Required]`.
 */
module Annotations {
  import opened Wrappers
  import opened Text

  /** `int.MaxValue`, the upper bound of `[Range(1, int.MaxValue)]`. */
  const IntMaxValue: int := 0x7FFF_FFFF

  /** `[Required]` on a string: present and not blank (empty strings are not allowed). */
  predicate Required(s: Option<string>) {
    s.Some? && !AllWhiteSpace(s.value)
  }

  /** `[Required]` on a string property that the model declares non-nullable. */
  predicate RequiredText(s: string) {
    Required(Some(s))
  }

  /** `[StringLength(max)]`, which measures `string.Length` in UTF-16 code units. */
  predicate MaxLength(s: Option<string>, max: nat) {
    s.None? || Utf16Length(s.value) <= max
  }

  /** `[StringLength(max, MinimumLength = min)]`, in UTF-16 code units. */
  predicate LengthBetween(s: Option<string>, min: nat, max: nat) {
    s.None? || min <= Utf16Length(s.value) <= max
  }

  /** `[Range(lo, hi)]` on an integer. */
  predicate InRange(v: int, lo: int, hi: int) {
    lo <= v <= hi
  }

  /** A decimal digit, as `\d` and `char.IsDigit` accept it (ASCII digits only in this model). */
  predicate IsDecimalDigit(c: char) {
    '0' <= c <= '9'
  }

  /** The characters `[Phone]` tolerates besides digits and white space: a `+` anywhere and "-.()". */
  predicate IsPhonePunctuation(c: char) {
    c == '+' || c == '-' || c == '.' || c == '(' || c == ')'
  }

  /** `[Phone]`: at least one digit, and only digits, white space and phone punctuation. */
  predicate PhoneFormat(s: Option<string>) {
    s.None? ||
    ((exists i :: 0 <= i < |s.value| && IsDecimalDigit(s.value[i])) &&
     forall i :: 0 <= i < |s.value| ==> IsDecimalDigit(s.value[i]) || IsWhiteSpace(s.value[i]) || IsPhonePunctuation(s.value[i]))
  }

  /** `[EmailAddress]`: exactly one '@', neither the first nor the last character. */
  predicate EmailFormat(s: Option<string>) {
    s.None? ||
    exists k :: 0 < k < |s.value| - 1 && s.value[k] == '@' &&
      forall j :: 0 <= j < |s.value| && j != k ==> s.value[j] != '@'
  }

  /** The Ukrainian mobile number shape `^\+380\d{9}$`: "+380" and exactly nine digits. */
  predicate IsUaPhone(s: string) {
    |s| == 13 && s[..4] == "+380" && forall i :: 4 <= i < 13 ==> IsDecimalDigit(s[i])
  }

  /**
   * `[RegularExpression(@"^\+380\d{9}$")]`: an absent or empty value passes,
   * any other must match the whole pattern.
   */
  predicate UaPhonePattern(s: Option<string>) {
    s.None? || s.value == [] || IsUaPhone(s.value)
  }

  /** `[Compare(other)]`: equal to the other property's value. */
  predicate SameAs<T(==)>(v: T, other: T) {
    v == other
  }

  /** A number of the required shape passes `[Required]`, `[Phone]` and the pattern. */
  lemma UaPhonePassesAll(s: string)
    requires IsUaPhone(s)
    ensures Required(Some(s)) && PhoneFormat(Some(s)) && UaPhonePattern(Some(s))
  {
    assert s[..4][0] == '+';
    assert IsDecimalDigit(s[4]) && !IsWhiteSpace(s[4]);
    forall i | 0 <= i < |s|
      ensures IsDecimalDigit(s[i]) || IsWhiteSpace(s[i]) || IsPhonePunctuation(s[i])
    {
      if i < 4 { assert s[i] == s[..4][i]; }
    }
  }

  /**
   * Under `[Required]`, `[Phone]` and the pattern together, a phone number is
   * valid exactly when it is "+380" followed by nine digits.
   */
  lemma UaPhoneRule(s: Option<string>)
    ensures Required(s) && PhoneFormat(s) && UaPhonePattern(s) <==> s.Some? && IsUaPhone(s.value)
  {
    if s.Some? && IsUaPhone(s.value) { UaPhonePassesAll(s.value); }
  }
}
