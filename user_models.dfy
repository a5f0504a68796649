/** The user record and the fixed set of teams a user can belong to. */
module UserModels {
  import opened Common

  /** The seven team choices; the first is the default. */
  datatype Team = Danbi | Darae | BlahBlah | Cheolro | Ddange | Haetae | Supie

  const Teams: seq<Team> := [Danbi, Darae, BlahBlah, Cheolro, Ddange, Haetae, Supie]
  const DefaultTeam: Team := Danbi
  const UsernameMaxLength: nat := 50

  /** The value stored in the `team` column (the choice's value, not its label). */
  function TeamName(t: Team): string {
    match t
    case Danbi => "Danbi"
    case Darae => "Darae"
    case BlahBlah => "BlahBlah"
    case Cheolro => "Cheolro"
    case Ddange => "Ddange"
    case Haetae => "Haetae"
    case Supie => "Supie"
  }

  /** The choice field: a submitted string is a team exactly when it is that team's value. */
  function ParseTeam(s: string): (r: Option<Team>)
    ensures forall t :: r == Some(t) <==> TeamName(t) == s
  {
    if s == "Danbi" then Some(Danbi)
    else if s == "Darae" then Some(Darae)
    else if s == "BlahBlah" then Some(BlahBlah)
    else if s == "Cheolro" then Some(Cheolro)
    else if s == "Ddange" then Some(Ddange)
    else if s == "Haetae" then Some(Haetae)
    else if s == "Supie" then Some(Supie)
    else None
  }

  /** Exactly seven strings are teams, and they are the values listed in `Teams`. */
  lemma TeamsAreSevenValues()
    ensures |Teams| == 7
    ensures forall t: Team :: t in Teams
    ensures forall i, j :: 0 <= i < j < |Teams| ==> TeamName(Teams[i]) != TeamName(Teams[j])
    ensures forall s :: ParseTeam(s).Some? <==>
      s in {"Danbi", "Darae", "BlahBlah", "Cheolro", "Ddange", "Haetae", "Supie"}
  {
    forall t: Team ensures t in Teams {
      match t
      case Danbi => assert Teams[0] == t;
      case Darae => assert Teams[1] == t;
      case BlahBlah => assert Teams[2] == t;
      case Cheolro => assert Teams[3] == t;
      case Ddange => assert Teams[4] == t;
      case Haetae => assert Teams[5] == t;
      case Supie => assert Teams[6] == t;
    }
  }

  /** Different teams have different stored values. */
  lemma TeamNameInjective(a: Team, b: Team)
    ensures TeamName(a) == TeamName(b) ==> a == b
  {
    var r := ParseTeam(TeamName(b));
  }

  /** A stored user. `password` holds the credential hash, never the plaintext. */
  datatype User = User(username: string, password: string, team: Team,
                       isActive: bool, isStaff: bool, isAdmin: bool,
                       dateJoined: Time, lastLogin: Time)

  /** A freshly saved user: active, neither staff nor admin, both stamps set to `now`. */
  function NewUser(username: string, passwordHash: string, team: Team, now: Time): (u: User)
    ensures u.username == username && u.password == passwordHash && u.team == team
    ensures u.isActive && !u.isStaff && !u.isAdmin
    ensures u.dateJoined == now && u.lastLogin == now
  {
    User(username, passwordHash, team, true, false, false, now, now)
  }

  /** The string form of a user. */
  function UserString(u: User): string {
    u.username
  }

  /** The `unique=True` constraint on `username`. */
  ghost predicate UniqueUsernames(users: map<nat, User>) {
    forall a, b :: a in users && b in users && users[a].username == users[b].username ==> a == b
  }

  /** The usernames already taken. */
  function Usernames(users: map<nat, User>): (names: set<string>)
    ensures forall pk :: pk in users ==> users[pk].username in names
    ensures forall name :: name in names ==> exists pk :: pk in users && users[pk].username == name
  {
    set pk | pk in users :: users[pk].username
  }

  /** Adding a user whose name is not taken keeps usernames unique. */
  lemma AddFreshNameKeepsUnique(users: map<nat, User>, pk: nat, u: User)
    requires UniqueUsernames(users)
    requires pk !in users && u.username !in Usernames(users)
    ensures UniqueUsernames(users[pk := u])
  {
  }
}
