/** The file of users: written entry by entry, read by searching for names. */
module UserTable {
  import opened Extract
  import opened Fields
  import opened Text
  import opened Wrappers

  datatype User = User(username: string, password: string, elo: int, wins: int, losses: int)

  type Users = map<string, User>

  const TABLE := Layout(": ", ",\n    ")
  const DEFAULT_ELO := 1200
  const VALUE_ENDS := {'"', ',', '\n', '\r', '}'}

  // ---------- writing ----------

  function UserFields(u: User): seq<Field> {
    [Word("username", u.username), Word("password", u.password), Bare("elo", Decimal(u.elo)),
     Bare("wins", Decimal(u.wins)), Bare("losses", Decimal(u.losses))]
  }

  function UserText(u: User): string {
    "  {\n    " + FieldsText(UserFields(u), TABLE) + "\n  }"
  }

  function UserTexts(us: seq<User>): (r: seq<string>)
    ensures |r| == |us| && forall i :: 0 <= i < |us| ==> r[i] == UserText(us[i])
  {
    seq(|us|, i requires 0 <= i < |us| => UserText(us[i]))
  }

  function FileText(us: seq<User>): string {
    "[\n" + Joined(UserTexts(us), ",\n") + "\n]\n"
  }

  // ---------- reading ----------

  function SkipOpening(t: string): string {
    if t != "" && (t[0] == ' ' || t[0] == '"') then SkipOpening(t[1..]) else t
  }

  function UpTo(t: string, stops: set<char>): string {
    if t != "" && t[0] !in stops then [t[0]] + UpTo(t[1..], stops) else ""
  }

  /** `extract_val` */
  function ValueOf(obj: string, key: string): string {
    match AfterColon(obj, key)
    case None => ""
    case Some(t) => UpTo(SkipOpening(t), VALUE_ENDS)
  }

  /** An `int`, or the default where there is no text; `stoi` may throw. */
  function NumberOr(s: string, default: int): Option<int> {
    if s == "" then Some(default) else Stoi(s)
  }

  function ReadUser(obj: string): Option<User> {
    var elo :- NumberOr(ValueOf(obj, "elo"), DEFAULT_ELO);
    var wins :- NumberOr(ValueOf(obj, "wins"), 0);
    var losses :- NumberOr(ValueOf(obj, "losses"), 0);
    Some(User(ValueOf(obj, "username"), ValueOf(obj, "password"), elo, wins, losses))
  }

  /** The stretches from the word "username" up to the next closing brace. */
  function Stretches(s: string, pos: nat): seq<string>
    requires pos <= |s|
    decreases |s| - pos
  {
    match FindFrom(s, Quoted("username"), pos)
    case None => []
    case Some(b) =>
      match FindFrom(s, "}", b)
      case None => []
      case Some(e) => [s[b..e]] + Stretches(s, e + 1)
  }

  function Enter(users: Users, u: User): Users {
    if u.username == "" then users else users[u.username := u]
  }

  /** The table that the stretches leave; nothing as soon as one of them cannot be read. */
  function Tabled(objs: seq<string>, read: string -> Option<User>, users: Users): Option<Users>
    decreases |objs|
  {
    if objs == [] then Some(users)
    else
      var u :- read(objs[0]);
      Tabled(objs[1..], read, Enter(users, u))
  }

  /** The users entered before the first stretch that cannot be read. */
  function Entered(objs: seq<string>, read: string -> Option<User>, users: Users): Users
    decreases |objs|
  {
    if objs == [] || read(objs[0]).None? then users else Entered(objs[1..], read, Enter(users, read(objs[0]).value))
  }

  function LoadedFrom(file: string): Option<Users> {
    Tabled(Stretches(file, 0), ReadUser, map[])
  }

  // ---------- the manager ----------

  /** What `std::unordered_map` may iterate over: every key once. */
  ghost predicate Enumerates(order: seq<string>, users: Users) {
    && (forall i, j :: 0 <= i < j < |order| ==> order[i] != order[j])
    && (forall x :: x in order <==> x in users)
  }

  function Listed(order: seq<string>, users: Users): (us: seq<User>)
    requires forall x :: x in order ==> x in users
    ensures |us| == |order| && forall i :: 0 <= i < |order| ==> us[i] == users[order[i]]
  {
    seq(|order|, i requires 0 <= i < |order| => assert order[i] in order; users[order[i]])
  }

  class UserManager {
    var users: Users

    constructor ()
      ensures users == map[]
    {
      users := map[];
    }

    /** Writes the users in the order in which the table is iterated; nothing if the file cannot be opened. */
    method Save(order: seq<string>, opens: bool) returns (saved: Option<string>)
      requires Enumerates(order, users)
      ensures saved == if opens then Some(FileText(Listed(order, users))) else None
    {
      if !opens {
        return None;
      }
      ghost var ts := UserTexts(Listed(order, users));
      var file := "[\n";
      for i := 0 to |order|
        invariant file == "[\n" + Joined(ts[..i], ",\n")
      {
        assert order[i] in order;
        JoinedSnoc(ts, ",\n", i);
        if i > 0 {
          file := file + ",\n";
        }
        var line := UserText(users[order[i]]);
        assert line == ts[i];
        file := file + line;
      }
      assert ts[..|order|] == ts;
      return Some(file + "\n]\n");
    }

    /** Replaces the table by what is in the file; a number that cannot be read ends the loading there. */
    method Load(file: Option<string>) returns (ok: bool, thrown: bool)
      modifies this
      ensures file.None? ==> !ok && !thrown && users == old(users)
      ensures file.Some? ==> thrown == LoadedFrom(file.value).None? && ok == !thrown
      ensures file.Some? ==> users == Entered(Stretches(file.value, 0), ReadUser, map[])
      ensures ok ==> LoadedFrom(file.value) == Some(users)
    {
      if file.None? {
        return false, false;
      }
      users := map[];
      var s, pos := file.value, 0;
      while true
        invariant pos <= |s|
        invariant Tabled(Stretches(s, pos), ReadUser, users) == LoadedFrom(s)
        invariant Entered(Stretches(s, pos), ReadUser, users) == Entered(Stretches(s, 0), ReadUser, map[])
        decreases |s| - pos
      {
        var next := NextStretch(s, pos);
        if next.None? {
          return true, false;
        }
        var obj, after := next.value.0, next.value.1;
        TabledCons(obj, Stretches(s, after), ReadUser, users);
        var user := TakeUser(obj);
        if user.None? {
          return false, true;
        }
        if user.value.username != "" {
          users := users[user.value.username := user.value];
        }
        pos := after;
      }
    }
  }

  method NextStretch(s: string, pos: nat) returns (r: Option<(string, nat)>)
    requires pos <= |s|
    ensures r.None? ==> Stretches(s, pos) == []
    ensures r.Some? ==> pos < r.value.1 <= |s| && Stretches(s, pos) == [r.value.0] + Stretches(s, r.value.1)
  {
    var start := FindFrom(s, Quoted("username"), pos);
    if start.None? {
      return None;
    }
    var end := FindFrom(s, "}", start.value);
    if end.None? {
      return None;
    }
    var obj, after := s[start.value..end.value], end.value + 1;
    StretchesStep(s, pos, start.value, end.value, obj, after);
    return Some((obj, after));
  }

  lemma StretchesStep(s: string, pos: nat, b: nat, e: nat, first: string, after: nat)
    requires pos <= |s| && FindFrom(s, Quoted("username"), pos) == Some(b) && FindFrom(s, "}", b) == Some(e)
    requires after == e + 1 && first == s[b..e]
    ensures Stretches(s, pos) == [first] + Stretches(s, after)
  {
    assert Stretches(s, pos) == [s[b..e]] + Stretches(s, e + 1);
  }

  method TakeUser(obj: string) returns (r: Option<User>)
    ensures r == ReadUser(obj)
  {
    var username := ExtractVal(obj, "username");
    var password := ExtractVal(obj, "password");
    var eloText := ExtractVal(obj, "elo");
    var elo :- NumberOr(eloText, DEFAULT_ELO);
    var winsText := ExtractVal(obj, "wins");
    var wins :- NumberOr(winsText, 0);
    var lossesText := ExtractVal(obj, "losses");
    var losses :- NumberOr(lossesText, 0);
    return Some(User(username, password, elo, wins, losses));
  }

  /** Skips spaces and quotes after the colon, then takes everything up to the end of the value. */
  method ExtractVal(obj: string, key: string) returns (value: string)
    ensures value == ValueOf(obj, key)
  {
    var k := Find(obj, Quoted(key));
    if k.None? {
      return "";
    }
    var colon := FindFrom(obj, ":", k.value);
    if colon.None? {
      return "";
    }
    value := ScanValue(obj, colon.value + 1);
  }

  method ScanValue(obj: string, from: nat) returns (value: string)
    requires from <= |obj|
    ensures value == UpTo(SkipOpening(obj[from..]), VALUE_ENDS)
  {
    var start := from;
    while start < |obj| && (obj[start] == ' ' || obj[start] == '"')
      invariant from <= start <= |obj|
      invariant SkipOpening(obj[start..]) == SkipOpening(obj[from..])
    {
      assert obj[start..][1..] == obj[start + 1..];
      start := start + 1;
    }
    assert SkipOpening(obj[start..]) == obj[start..];
    value := ScanTo(obj, start);
  }

  lemma UpToNext(obj: string, start: nat, end: nat)
    requires start <= end < |obj| && obj[end] !in VALUE_ENDS
    ensures obj[start..end] + UpTo(obj[end..], VALUE_ENDS) == obj[start..end + 1] + UpTo(obj[end + 1..], VALUE_ENDS)
  {
    assert obj[end..][1..] == obj[end + 1..];
    assert obj[start..end + 1] == obj[start..end] + [obj[end]];
  }

  method ScanTo(obj: string, start: nat) returns (value: string)
    requires start <= |obj|
    ensures value == UpTo(obj[start..], VALUE_ENDS)
  {
    var end := start;
    while end < |obj| && obj[end] !in VALUE_ENDS
      invariant start <= end <= |obj|
      invariant obj[start..end] + UpTo(obj[end..], VALUE_ENDS) == UpTo(obj[start..], VALUE_ENDS)
    {
      UpToNext(obj, start, end);
      end := end + 1;
    }
    value := obj[start..end];
  }

  lemma TabledCons(obj: string, objs: seq<string>, read: string -> Option<User>, users: Users)
    ensures Tabled([obj] + objs, read, users) ==
      match read(obj)
      case None => None
      case Some(u) => Tabled(objs, read, Enter(users, u))
    ensures Entered([obj] + objs, read, users) ==
      match read(obj)
      case None => users
      case Some(u) => Entered(objs, read, Enter(users, u))
  {
    assert ([obj] + objs)[1..] == objs;
  }
}
