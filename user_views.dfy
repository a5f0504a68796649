/** What the signup, login and logout endpoints answer. */
module UserViews {
  import opened Common
  import opened UserModels
  import opened UserSerializers

  datatype SignupReply =
    | SignedUp(userPk: nat, username: string, team: Team, message: string)
    | SignupInvalid(errors: set<SignupField>)

  /** The two body fields the login endpoint reads; None is a missing field. */
  datatype LoginForm = LoginForm(username: Option<string>, password: Option<string>)

  datatype LoginReply =
    | LoggedIn(userPk: nat, username: string, team: Team, message: string)
    | LoginRefused(message: string)

  const MissingCredentialsMessage: string := "username, password를 입력해주세요"
  const BadCredentialsMessage: string := "username 또는 password가 일치하지 않습니다."
  const LogoutMessage: string := "로그아웃되었습니다."

  const TeamSeparator: string := " 팀의 "

  const SignupTail: string := "님, 회원가입이 완료되었습니다."
  const LoginTail: string := "님, 로그인되었습니다."

  /** "{team} 팀의 {username}님, 회원가입이 완료되었습니다." */
  function SignupMessage(team: Team, username: string): string {
    TeamName(team) + (TeamSeparator + username + SignupTail)
  }

  /** "{team} 팀의 {username}님, 로그인되었습니다." */
  function LoginMessage(team: Team, username: string): string {
    TeamName(team) + (TeamSeparator + username + LoginTail)
  }

  predicate MissingCredentials(form: LoginForm) {
    form.username.None? || form.password.None?
  }

  /** No team value contains a space. */
  lemma NoSpaceInTeamName(t: Team, rest: string, i: nat)
    requires i < |TeamName(t)|
    ensures (TeamName(t) + rest)[i] != ' '
  {
    match t case _ =>
  }

  /** The first space marks where the team value ends, so the prefix is determined. */
  lemma TeamPrefixDetermined(t1: Team, t2: Team, rest1: string, rest2: string)
    requires |rest1| > 0 && rest1[0] == ' ' && |rest2| > 0 && rest2[0] == ' '
    requires TeamName(t1) + rest1 == TeamName(t2) + rest2
    ensures t1 == t2 && rest1 == rest2
  {
    var n1, n2 := TeamName(t1), TeamName(t2);
    var m := n1 + rest1;
    if |n1| < |n2| {
      NoSpaceInTeamName(t2, rest2, |n1|);
      assert false;
    }
    if |n2| < |n1| {
      NoSpaceInTeamName(t1, rest1, |n2|);
      assert false;
    }
    assert n1 == m[..|n1|] == n2;
    assert rest1 == m[|n1|..] == rest2;
  }

  /** Equal strings that share a prefix and a suffix have equal middles. */
  lemma CancelAround(p: string, x: string, y: string, q: string)
    requires p + x + q == p + y + q
    ensures x == y
  {
    var l := p + x + q;
    assert x == l[|p|..|l| - |q|];
    assert y == l[|p|..|l| - |q|];
  }

  /** The signup message names the team and the user unambiguously. */
  lemma SignupMessageIdentifiesUser(t1: Team, u1: string, t2: Team, u2: string)
    requires SignupMessage(t1, u1) == SignupMessage(t2, u2)
    ensures t1 == t2 && u1 == u2
  {
    var r1, r2 := TeamSeparator + u1 + SignupTail, TeamSeparator + u2 + SignupTail;
    TeamPrefixDetermined(t1, t2, r1, r2);
    CancelAround(TeamSeparator, u1, u2, SignupTail);
  }
}
