/** The signup serializer: the username and password patterns, password hashing,
    and the per-field errors of a signup form. */
module UserSerializers {
  import opened Common
  import opened UserModels

  /** The character class `[a-zA-Z0-9_]`. */
  predicate IsWordChar(c: char) {
    ('a' <= c <= 'z') || ('A' <= c <= 'Z') || ('0' <= c <= '9') || c == '_'
  }

  predicate AllWordChars(s: string) {
    forall i :: 0 <= i < |s| ==> IsWordChar(s[i])
  }

  // ---------------------------------------------------------------------------
  // How Python's `re.match(r"^[a-zA-Z0-9_]{lo,hi}$", s)` runs.

  /** How many characters the greedy repetition `[a-zA-Z0-9_]{0,max}` takes from the front of `s`. */
  function GreedyRun(s: string, max: nat): (n: nat)
    ensures n <= max && n <= |s|
    ensures forall i :: 0 <= i < n ==> IsWordChar(s[i])
    ensures n < max && n < |s| ==> !IsWordChar(s[n])
    decreases max
  {
    if max == 0 || |s| == 0 || !IsWordChar(s[0]) then 0
    else 1 + GreedyRun(s[1..], max - 1)
  }

  /** `$` without MULTILINE: the end of the string, or the position just before a final newline. */
  predicate AtEnd(s: string, i: nat) {
    i == |s| || (i + 1 == |s| && s[i] == '\n')
  }

  /** The engine tries `$` after `k` repetitions, then gives one back, down to `lo`. */
  predicate Backtrack(s: string, lo: nat, k: nat)
    requires k <= |s|
    decreases k
  {
    AtEnd(s, k) || (lo < k && Backtrack(s, lo, k - 1))
  }

  /** The anchored pattern with bounds `lo` and `hi` matches `s`. */
  predicate PatternMatches(s: string, lo: nat, hi: nat) {
    var n := GreedyRun(s, hi);
    lo <= n && Backtrack(s, lo, n)
  }

  // ---------------------------------------------------------------------------
  // What the pattern accepts, stated directly.

  /** `lo` to `hi` characters of the class, optionally followed by exactly one newline. */
  predicate Accepted(s: string, lo: nat, hi: nat) {
    || (lo <= |s| <= hi && AllWordChars(s))
    || (0 < |s| && s[|s| - 1] == '\n' && lo <= |s| - 1 <= hi && AllWordChars(s[..|s| - 1]))
  }

  /** Giving back repetitions never helps: a newline is not in the class. */
  lemma {:induction false} BacktrackOnlyAtGreedyEnd(s: string, lo: nat, k: nat)
    requires lo <= k <= |s|
    requires forall i :: 0 <= i < k ==> IsWordChar(s[i])
    ensures Backtrack(s, lo, k) <==> AtEnd(s, k)
  {
    if lo < k {
      BacktrackOnlyAtGreedyEnd(s, lo, k - 1);
      assert IsWordChar(s[k - 1]);
      assert !AtEnd(s, k - 1);
    }
  }

  /** The engine's answer is exactly the declarative one. */
  lemma PatternMatchesIffAccepted(s: string, lo: nat, hi: nat)
    requires lo <= hi
    ensures PatternMatches(s, lo, hi) <==> Accepted(s, lo, hi)
  {
    var n := GreedyRun(s, hi);
    if lo <= n {
      BacktrackOnlyAtGreedyEnd(s, lo, n);
      if AtEnd(s, n) && n + 1 == |s| && n != |s| {
        assert s[..|s| - 1] == s[..n];
        assert AllWordChars(s[..n]);
      }
    }
    if lo <= |s| <= hi && AllWordChars(s) {
      assert n == |s|;
    } else if 0 < |s| && s[|s| - 1] == '\n' && lo <= |s| - 1 <= hi && AllWordChars(s[..|s| - 1]) {
      var m := |s| - 1;
      assert forall i :: 0 <= i < m ==> s[i] == s[..m][i];
      assert !IsWordChar(s[m]);
      assert n == m;
    }
  }

  // ---------------------------------------------------------------------------
  // The field validators.

  const UsernameMin: nat := 4
  const UsernameMax: nat := 16
  const PasswordMin: nat := 8
  const PasswordMax: nat := 16

  /** `validate_username`: the value itself, or a validation error (None). */
  function ValidateUsername(value: string): (r: Option<string>)
    ensures r.Some? <==> Accepted(value, UsernameMin, UsernameMax)
    ensures r.Some? ==> r.value == value
  {
    PatternMatchesIffAccepted(value, UsernameMin, UsernameMax);
    if PatternMatches(value, UsernameMin, UsernameMax) then Some(value) else None
  }

  /** `validate_password`: the hash of the password, or a validation error (None). */
  function ValidatePassword(password: string, hash: string -> string): (r: Option<string>)
    ensures r.Some? <==> Accepted(password, PasswordMin, PasswordMax)
    ensures r.Some? ==> r.value == hash(password)
  {
    PatternMatchesIffAccepted(password, PasswordMin, PasswordMax);
    if PatternMatches(password, PasswordMin, PasswordMax) then Some(hash(password)) else None
  }

  /** Without a newline in it, a value passes iff it has `lo` to `hi` characters, all from the class. */
  lemma AcceptedWithoutNewline(s: string, lo: nat, hi: nat)
    requires forall i :: 0 <= i < |s| ==> s[i] != '\n'
    ensures Accepted(s, lo, hi) <==> lo <= |s| <= hi && AllWordChars(s)
  {
  }

  /** A passing value followed by one newline passes too; followed by two, it fails. */
  lemma TrailingNewline(w: string, lo: nat, hi: nat)
    requires lo <= |w| <= hi && AllWordChars(w)
    ensures Accepted(w + "\n", lo, hi)
    ensures !Accepted(w + "\n\n", lo, hi)
  {
    assert (w + "\n")[..|w|] == w;
    var v := w + "\n\n";
    assert v[|v| - 2] == '\n' && !IsWordChar(v[|v| - 2]);
    assert v[..|v| - 1][|v| - 2] == '\n';
  }

  // ---------------------------------------------------------------------------
  // The signup form.

  /** The only fields the serializer takes from signup input; None is a missing field. */
  datatype SignupForm = SignupForm(username: Option<string>, password: Option<string>, team: Option<string>)

  datatype SignupField = UsernameField | PasswordField | TeamField

  /** The outcome of validation: the values to save, or the fields in error. */
  datatype SignupCheck =
    | Accept(username: string, passwordHash: string, team: Team)
    | Reject(errors: set<SignupField>)

  /** The username's own checks: required, at most 50 characters, not taken, the pattern. */
  predicate UsernameFine(username: Option<string>, taken: set<string>) {
    username.Some? && |username.value| <= UsernameMaxLength && username.value !in taken
    && ValidateUsername(username.value).Some?
  }

  predicate PasswordFine(password: Option<string>, hash: string -> string) {
    password.Some? && ValidatePassword(password.value, hash).Some?
  }

  /** The team may be omitted (it has a default); if given it must be one of the choices. */
  predicate TeamFine(team: Option<string>) {
    team.None? || ParseTeam(team.value).Some?
  }

  function SignupErrors(form: SignupForm, taken: set<string>, hash: string -> string): (errs: set<SignupField>)
    ensures UsernameField in errs <==>
      form.username.None? || form.username.value in taken
      || !Accepted(form.username.value, UsernameMin, UsernameMax)
    ensures PasswordField in errs <==>
      form.password.None? || !Accepted(form.password.value, PasswordMin, PasswordMax)
    ensures TeamField in errs <==>
      form.team.Some? && forall t :: TeamName(t) != form.team.value
  {
    (if UsernameFine(form.username, taken) then {} else {UsernameField})
    + (if PasswordFine(form.password, hash) then {} else {PasswordField})
    + (if TeamFine(form.team) then {} else {TeamField})
  }

  /** Serializer validation of a signup form against the usernames already `taken`. */
  function ValidateSignup(form: SignupForm, taken: set<string>, hash: string -> string): (r: SignupCheck)
    ensures r.Reject? <==> SignupErrors(form, taken, hash) != {}
    ensures r.Reject? ==> r.errors == SignupErrors(form, taken, hash)
    ensures r.Accept? ==>
      && Some(r.username) == form.username
      && r.username !in taken
      && Accepted(r.username, UsernameMin, UsernameMax)
      && form.password.Some?
      && Accepted(form.password.value, PasswordMin, PasswordMax)
      && r.passwordHash == hash(form.password.value)
      && (if form.team.Some? then TeamName(r.team) == form.team.value else r.team == DefaultTeam)
  {
    var errs := SignupErrors(form, taken, hash);
    if errs != {} then Reject(errs)
    else
      Accept(form.username.value,
             ValidatePassword(form.password.value, hash).value,
             if form.team.Some? then ParseTeam(form.team.value).value else DefaultTeam)
  }
}
