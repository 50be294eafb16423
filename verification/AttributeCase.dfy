/**
 Attribute names lose their upper-case letters in a parsed template, so they are written with
 a dash before each of them and read back afterwards.
 */
module AttributeCase {

  predicate IsUpper(c: char) {
    'A' <= c <= 'Z'
  }

  predicate IsLower(c: char) {
    'a' <= c <= 'z'
  }

  function Lower(c: char): (l: char)
    requires IsUpper(c)
    ensures IsLower(l) && Upper(l) == c
  {
    c + ' '
  }

  function Upper(c: char): (u: char)
    requires IsLower(c)
    ensures IsUpper(u)
  {
    c - ' '
  }

  /** A dash and the lower-case letter for each upper-case letter. */
  function ToKebab(s: string): string {
    if s == "" then ""
    else if IsUpper(s[0]) then "-" + [Lower(s[0])] + ToKebab(s[1..])
    else [s[0]] + ToKebab(s[1..])
  }

  /** The upper-case letter for each dash that a lower-case letter follows. */
  function ToCamel(s: string): string {
    if s == "" then ""
    else if |s| >= 2 && s[0] == '-' && IsLower(s[1]) then [Upper(s[1])] + ToCamel(s[2..])
    else [s[0]] + ToCamel(s[1..])
  }

  /** Somewhere a lower-case letter follows a dash. */
  predicate HasDashedLetter(s: string) {
    exists i | 0 <= i < |s| - 1 :: s[i] == '-' && IsLower(s[i + 1])
  }

  lemma TailDashes(s: string)
    requires s != ""
    ensures HasDashedLetter(s) <==> HasDashedLetter(s[1..]) || (|s| >= 2 && s[0] == '-' && IsLower(s[1]))
  {
    var rest := s[1..];
    if HasDashedLetter(rest) {
      var i :| 0 <= i < |rest| - 1 && rest[i] == '-' && IsLower(rest[i + 1]);
      assert s[i + 1] == '-' && IsLower(s[i + 2]);
    }
    if HasDashedLetter(s) {
      var i :| 0 <= i < |s| - 1 && s[i] == '-' && IsLower(s[i + 1]);
      assert i > 0 ==> rest[i - 1] == '-' && IsLower(rest[i]);
    }
  }

  /** Case folding cannot damage an encoded name. */
  lemma {:induction false} EncodedHasNoUpper(s: string, i: nat)
    requires i < |ToKebab(s)|
    ensures !IsUpper(ToKebab(s)[i])
  {
    if IsUpper(s[0]) {
      if i >= 2 {
        EncodedHasNoUpper(s[1..], i - 2);
      }
    } else if i > 0 {
      EncodedHasNoUpper(s[1..], i - 1);
    }
  }

  /** A name comes back unchanged exactly when no lower-case letter follows a dash in it. */
  lemma {:induction false} RoundTrip(s: string)
    ensures ToCamel(ToKebab(s)) == s <==> !HasDashedLetter(s)
  {
    if s != "" {
      var rest, encoded := s[1..], ToKebab(s[1..]);
      RoundTrip(rest);
      TailDashes(s);
      assert s == [s[0]] + rest;
      if IsUpper(s[0]) {
        assert ToKebab(s)[2..] == encoded;
        assert ToCamel(ToKebab(s)) == [s[0]] + ToCamel(encoded);
      } else {
        assert ToKebab(s)[1..] == encoded;
        assert rest != "" && IsLower(rest[0]) ==> encoded[0] == rest[0];
      }
    }
  }
}
