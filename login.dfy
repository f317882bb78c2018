/**
 * The sign-in page: user IDs are restricted to ASCII letters and digits,
 * and an ID is turned into the login e-mail address by appending a fixed
 * dummy domain.
 */
module Login {
  import opened Wrappers

  const DummyDomain := "@familybudget.com"

  predicate IsAsciiAlnum(c: char) {
    ('a' <= c <= 'z') || ('A' <= c <= 'Z') || ('0' <= c <= '9')
  }

  /** `/^[a-zA-Z0-9]*$/.test(s)`. */
  predicate MatchesIdPattern(s: string) {
    forall i :: 0 <= i < |s| ==> IsAsciiAlnum(s[i])
  }

  /**
   * `handleIdChange`: the typed value replaces the ID only when it is made
   * of letters and digits; otherwise the ID stays as it was.
   */
  function HandleIdChange(userId: string, typed: string): (r: string)
    ensures MatchesIdPattern(typed) ==> r == typed
    ensures !MatchesIdPattern(typed) ==> r == userId
    ensures MatchesIdPattern(userId) ==> MatchesIdPattern(r)
  {
    if MatchesIdPattern(typed) then typed else userId
  }

  /** Clearing the field is always accepted. */
  lemma EmptyIdAccepted(userId: string)
    ensures HandleIdChange(userId, "") == ""
  {
  }

  /** The address an ID signs in with: `${userId}${DUMMY_DOMAIN}`. */
  function LoginEmail(userId: string): (email: string)
    ensures |email| == |userId| + |DummyDomain|
    ensures email[..|userId|] == userId && email[|userId|..] == DummyDomain
  {
    userId + DummyDomain
  }

  /** The ID an address belongs to, when it ends in the dummy domain. */
  function UserIdOf(email: string): (r: Option<string>)
    ensures r.Some? <==> |email| >= |DummyDomain| && email[|email| - |DummyDomain|..] == DummyDomain
    ensures r.Some? ==> |r.value| == |email| - |DummyDomain|
  {
    if |email| >= |DummyDomain| && email[|email| - |DummyDomain|..] == DummyDomain
    then Some(email[..|email| - |DummyDomain|])
    else None
  }

  /** Every ID is recovered from its address, so two IDs never share one. */
  lemma EmailRoundTrip(userId: string)
    ensures UserIdOf(LoginEmail(userId)) == Some(userId)
  {
    var email := LoginEmail(userId);
    assert email[|email| - |DummyDomain|..] == DummyDomain;
  }

  lemma EmailInjective(u1: string, u2: string)
    requires LoginEmail(u1) == LoginEmail(u2)
    ensures u1 == u2
  {
    EmailRoundTrip(u1);
    EmailRoundTrip(u2);
  }

  /** For an ID that passed the pattern, the first `@` of the address is where the domain starts. */
  lemma AtSignSeparates(userId: string)
    requires MatchesIdPattern(userId)
    ensures forall i :: 0 <= i < |userId| ==> LoginEmail(userId)[i] != '@'
    ensures LoginEmail(userId)[|userId|] == '@'
  {
    var email := LoginEmail(userId);
    forall i | 0 <= i < |userId|
      ensures email[i] != '@'
    {
      assert email[i] == userId[i];
    }
    assert email[|userId|] == DummyDomain[0];
  }

  /** The sign-in form: the ID field and the message shown under it. */
  datatype LoginForm = LoginForm(userId: string, error: Option<string>)

  /**
   * `handleLogin`: signs in with the ID's address; the message is cleared
   * first and then holds the sign-in error, if there was one.
   * `signInError` stands for the auth service's reply.
   */
  function HandleLogin(form: LoginForm, signInError: Option<string>): (r: (string, LoginForm))
    ensures r.0 == LoginEmail(form.userId)
    ensures r.1.userId == form.userId
    ensures signInError.None? ==> r.1.error.None?
    ensures signInError.Some? ==> r.1.error == signInError
  {
    var cleared := form.(error := None);
    var email := LoginEmail(cleared.userId);
    (email, if signInError.Some? then cleared.(error := signInError) else cleared)
  }
}
