/** The browser's constraint validation of the form inputs the screens use.
    A form whose inputs fail it never fires its submit event, so the
    screen's handler is not called at all. Two constraints occur: `required`
    and `type="email"`, the latter following the valid e-mail address syntax
    of section 4.10.5.1.5 of the HTML Living Standard. */
module Html {
  import opened Js

  /** A `required` text input is missing its value exactly when it is
      empty; whitespace counts as a value. */
  predicate ValueMissing(s: string) {
    s == ""
  }

  predicate IsAsciiAlphanumeric(c: char) {
    ('a' <= c <= 'z') || ('A' <= c <= 'Z') || ('0' <= c <= '9')
  }

  /** The characters allowed before the `@`. */
  predicate IsLocalChar(c: char) {
    IsAsciiAlphanumeric(c) || c in ".!#$%&'*+/=?^_`{|}~-"
  }

  predicate IsLabelChar(c: char) {
    IsAsciiAlphanumeric(c) || c == '-'
  }

  /** A domain label: 1 to 63 letters, digits and hyphens, starting and
      ending with a letter or digit. */
  predicate ValidLabel(l: string) {
    && 1 <= |l| <= 63
    && (forall i :: 0 <= i < |l| ==> IsLabelChar(l[i]))
    && l[0] != '-' && l[|l| - 1] != '-'
  }

  /** One `@`, a non-empty local part of allowed characters before it, and
      after it a domain of dot-separated valid labels. */
  predicate ValidEmail(s: string) {
    var parts := Split(s, '@');
    && |parts| == 2
    && |parts[0]| > 0
    && (forall i :: 0 <= i < |parts[0]| ==> IsLocalChar(parts[0][i]))
    && var labels := Split(parts[1], '.');
       forall k :: 0 <= k < |labels| ==> ValidLabel(labels[k])
  }

  /** A `type="email"` input that is also `required` lets the form submit
      exactly when its value is present and a valid address. */
  predicate EmailInputValid(s: string) {
    !ValueMissing(s) && ValidEmail(s)
  }

  /** A valid address has exactly one `@`, with text on both sides. */
  lemma ValidEmailShape(s: string)
    requires ValidEmail(s)
    ensures Occurrences(s, '@') == 1
    ensures exists i :: 0 < i < |s| - 1 && s[i] == '@'
  {
    var parts := Split(s, '@');
    JoinSplit(s, '@');
    assert s == parts[0] + ['@'] + parts[1];
    var labels := Split(parts[1], '.');
    assert ValidLabel(labels[0]);
    assert |parts[1]| > 0;
    var i := |parts[0]|;
    assert s[i] == '@';
  }

  /** An address built from a local part and a domain that meet the rules
      is valid. */
  lemma ValidEmailOfParts(local: string, domain: string)
    requires |local| > 0 && forall i :: 0 <= i < |local| ==> IsLocalChar(local[i])
    requires '@' !in domain
    requires forall k :: 0 <= k < |Split(domain, '.')| ==> ValidLabel(Split(domain, '.')[k])
    ensures ValidEmail(local + ['@'] + domain)
  {
    forall i | 0 <= i < |local| ensures local[i] != '@' {
      assert IsLocalChar(local[i]);
    }
    SplitPrefix(local, domain, '@');
    SplitOfPiece(domain, '@');
  }
}
