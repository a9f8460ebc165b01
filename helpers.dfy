/**
 * The script validator applied to every whole name of the sanctions list: the
 * regular expression `^[A-Za-z0-9\s.,'\-"()&;:!?čšćž]*$`, matched with `re.match`.
 */
module Helpers {
  import opened Wrappers
  import opened PyText

  /** The lower-case Croatian letters the character class lists: č, š, ć, ž. */
  predicate CroatianLower(c: char) {
    c == '\U{10D}' || c == '\U{161}' || c == '\U{107}' || c == '\U{17E}'
  }

  /** The punctuation of the character class: . , ' - " ( ) & ; : ! ? */
  predicate LatinPunctuation(c: char) {
    c in ".,'-\"()&;:!?"
  }

  /** One member of the bracketed character class. */
  predicate LatinChar(c: char) {
    || 'A' <= c <= 'Z'
    || 'a' <= c <= 'z'
    || '0' <= c <= '9'
    || IsSpace(c)
    || LatinPunctuation(c)
    || CroatianLower(c)
  }

  /**
   * The starred class anchored at both ends: the empty string, or a class member
   * followed by a matching rest. (`$` may also match before a final newline, but a
   * newline is itself in the class, so that adds no string.)
   */
  predicate LatinText(s: string)
    decreases |s|
  {
    s == "" || (LatinChar(s[0]) && LatinText(s[1..]))
  }

  /** `is_latin(text)`; `None` stands for any non-string value, NaN included. */
  predicate IsLatin(text: Option<string>) {
    text.Some? && LatinText(text.value)
  }

  /** The pattern accepts a string exactly when each of its characters is in the class. */
  lemma {:induction false} LatinTextIffChars(s: string)
    ensures LatinText(s) <==> forall i :: 0 <= i < |s| ==> LatinChar(s[i])
    decreases |s|
  {
    if s != "" {
      LatinTextIffChars(s[1..]);
      assert forall i :: 1 <= i < |s| ==> s[i] == s[1..][i - 1];
    }
  }

  lemma NonStringRejected()
    ensures !IsLatin(None)
  {
  }

  lemma EmptyAccepted()
    ensures IsLatin(Some(""))
  {
  }

  /** Upper-case Č Š Ć Ž and both cases of Đ are outside the class. */
  lemma CroatianRejected(c: char)
    requires c in ['\U{10C}', '\U{160}', '\U{106}', '\U{17D}', '\U{110}', '\U{111}']
    ensures !IsLatin(Some([c]))
  {
  }

  /** The accepted strings are closed under concatenation. */
  lemma {:induction false} LatinConcat(s: string, t: string)
    requires LatinText(s) && LatinText(t)
    ensures LatinText(s + t)
    decreases |s|
  {
    if s != "" {
      LatinConcat(s[1..], t);
      assert (s + t)[0] == s[0] && (s + t)[1..] == s[1..] + t;
    } else {
      assert s + t == t;
    }
  }

  /** The accepted strings are closed under taking a contiguous substring. */
  lemma LatinSlice(s: string, i: nat, j: nat)
    requires LatinText(s) && i <= j <= |s|
    ensures LatinText(s[i..j])
  {
    LatinTextIffChars(s);
    LatinTextIffChars(s[i..j]);
  }
}
