/** Account identifiers (server/app/auth/identifiers.py) and routing identifiers
    (server/app/websocket/schemas.py). */
module Identifiers {
  import opened Prelude

  predicate Alphanumeric(c: char) {
    'a' <= c <= 'z' || '0' <= c <= '9'
  }

  predicate WellFormed(s: string, min: nat, max: nat) {
    && 0 < min <= |s| <= max
    && Alphanumeric(s[0])
    && forall i | 0 <= i < |s| :: Alphanumeric(s[i]) || s[i] in "._-"
  }

  /** IDENTIFIER_PATTERN: what the schema admits as sender or recipient of an envelope. */
  predicate Routable(s: string) {
    WellFormed(s, 1, 64)
  }

  /** USERNAME_PATTERN: what a normalized username must match. */
  predicate Acceptable(s: string) {
    WellFormed(s, 3, 32)
  }

  /** The two Unicode operations of the code: `strip` is str.strip, `fold` is NFKC, strip and
      casefold in this order. */
  datatype Unicode = Unicode(strip: string -> string, fold: string -> string)
  {
    /** What is assumed of them: surrounding blanks do not change the folded form, and neither
        operation touches a string that is already an identifier. */
    ghost predicate Sound() {
      && (forall s :: fold(strip(s)) == fold(s))
      && (forall s | Routable(s) :: strip(s) == s && fold(s) == s)
    }

    /** The normalized username, or None where the code raises InvalidUsernameError. */
    function Validate(raw: string): Option<string> {
      if strip(raw) == "" || !Acceptable(fold(raw)) then None else Some(fold(raw))
    }
  }

  /** Exactly which usernames are accepted, and as what: three to thirty-two characters when folded, the
      first a lowercase letter or a digit, the others also a dot, an underscore or a dash. */
  lemma ValidatesExactly(u: Unicode, raw: string)
    ensures u.Validate(raw).Some? <==>
              var n := u.fold(raw);
              && u.strip(raw) != "" && 3 <= |n| <= 32 && ('a' <= n[0] <= 'z' || '0' <= n[0] <= '9')
              && forall i | 0 <= i < |n| ::
                   'a' <= n[i] <= 'z' || '0' <= n[i] <= '9' || n[i] == '.' || n[i] == '_' || n[i] == '-'
    ensures u.Validate(raw).Some? ==> u.Validate(raw).value == u.fold(raw)
  {
  }

  /** Exactly which identifiers the schema admits: up to sixty-four characters of the same kinds. So every
      acceptable normalized username is admitted. */
  lemma RoutableExactly(s: string)
    ensures Routable(s) <==>
              && 1 <= |s| <= 64 && ('a' <= s[0] <= 'z' || '0' <= s[0] <= '9')
              && forall i | 0 <= i < |s| ::
                   'a' <= s[i] <= 'z' || '0' <= s[i] <= '9' || s[i] == '.' || s[i] == '_' || s[i] == '-'
    ensures Acceptable(s) ==> Routable(s)
  {
  }

  /** The stored username, stripped but not folded, is a valid routing identifier exactly when it
      was typed in its normalized form. */
  lemma RoutableIffNormalized(u: Unicode, raw: string)
    requires u.Sound() && u.Validate(raw).Some?
    ensures Routable(u.strip(raw)) <==> u.strip(raw) == u.fold(raw)
  {
    assert u.fold(u.strip(raw)) == u.fold(raw);
    if u.strip(raw) == u.fold(raw) {
      assert Acceptable(u.fold(raw));
    }
  }

  /** An accepted registration whose username can neither send nor be addressed. */
  lemma CapitalIsAcceptedButNotRoutable(u: Unicode)
    requires u.Sound() && u.strip("Alice") == "Alice" && u.fold("Alice") == "alice"
    ensures u.Validate("Alice") == Some("alice") && !Routable(u.strip("Alice"))
  {
    assert !Alphanumeric("Alice"[0]);
  }
}
