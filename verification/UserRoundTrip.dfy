/**
 What loading makes of a saved table of users: first of one value, then of one user, then of the whole file, and last of
 the table that is entered user by user.
 */
module UserRoundTrip {
  import opened Extract
  import opened Fields
  import opened Text
  import opened UserTable
  import opened Wrappers

  // ---------- one value ----------

  /** A name or password that is read as far as it goes, and no further. */
  predicate Safe(v: string) {
    && '"' !in v && ',' !in v && '\n' !in v && '\r' !in v && '}' !in v
    && (v != "" ==> v[0] != ' ')
  }

  function Inner(f: Field): string {
    if f.Word? then f.value else f.raw
  }

  predicate Plain(f: Field) {
    && Tidy(f) && ':' !in f.key && Safe(Inner(f)) && (f.Bare? ==> f.raw != "")
  }

  predicate AllPlain(fs: seq<Field>) {
    forall f :: f in fs ==> Plain(f)
  }

  lemma {:induction false} UpToAfter(v: string, r: string)
    requires (forall c :: c in v ==> c !in VALUE_ENDS) && r != "" && r[0] in VALUE_ENDS
    ensures UpTo(v + r, VALUE_ENDS) == v
  {
    if v == "" {
      assert v + r == r;
    } else {
      assert v[0] in v && (v + r)[1..] == v[1..] + r;
      UpToAfter(v[1..], r);
    }
  }

  predicate Ends(r: string) {
    r != "" && (r[0] == ',' || r[0] == '\n')
  }

  /** A printed value is read from after its colon. */
  lemma ValueText(f: Field, r: string)
    requires Plain(f) && Ends(r)
    ensures UpTo(SkipOpening(" " + (Printed(f) + r)), VALUE_ENDS) == Inner(f)
  {
    var t := " " + (Printed(f) + r);
    assert t[1..] == Printed(f) + r;
    if f.Bare? {
      assert f.raw[0] in f.raw;
      assert SkipOpening(t[1..]) == t[1..];
      UpToAfter(f.raw, r);
    } else {
      QuotedValue(f.value, r);
    }
  }

  lemma QuotedValue(v: string, r: string)
    requires Safe(v) && Ends(r)
    ensures UpTo(SkipOpening(Quoted(v) + r), VALUE_ENDS) == v
  {
    var t, tail := Quoted(v) + r, "\"" + r;
    assert t[1..] == v + tail;
    if v == "" {
      assert t[1..] == tail && tail[1..] == r;
      assert SkipOpening(r) == r;
      assert SkipOpening(tail) == r;
    } else {
      assert v[0] in v;
      assert SkipOpening(t[1..]) == t[1..];
      UpToAfter(v, tail);
    }
  }

  // ---------- one user ----------

  const CLOSE := "\n  "

  function Stretch(u: User): string {
    FieldsText(UserFields(u), TABLE) + CLOSE
  }

  /** What stands after the `n`-th field. */
  function Rest(fs: seq<Field>, n: nat): (r: string)
    requires n < |fs|
    ensures Ends(r)
  {
    Behind(fs, n, TABLE, CLOSE)
  }

  lemma StretchFrom(fs: seq<Field>, n: nat, w: string)
    requires n < |fs| && w == Printed(fs[n]) + Rest(fs, n)
    ensures FieldsText(fs[n..], TABLE) + CLOSE == Quoted(fs[n].key) + (":" + (" " + w))
  {
    FieldsFrom(fs, n, TABLE, CLOSE, w);
    assert TABLE.colon + w == ":" + (" " + w);
  }

  predicate Key(k: string) {
    Sought(k, TABLE) && ':' !in k
  }

  /** A name leads to what belongs to it if no earlier field holds the name. */
  lemma ValueFollows(fs: seq<Field>, n: nat, k: string)
    requires n < |fs| && AllTidy(fs) && fs[n].key == k && Key(k) && forall m :: 0 <= m < n ==> !Names(fs[m], k)
    ensures AfterColon(FieldsText(fs, TABLE) + CLOSE, k) == Some(" " + (Printed(fs[n]) + Rest(fs, n)))
  {
    var w := Printed(fs[n]) + Rest(fs, n);
    Locate(fs, n, TABLE, CLOSE, k);
    StretchFrom(fs, n, w);
    AfterColonIs(FieldsText(fs, TABLE) + CLOSE, k, FieldsText(fs[n..], TABLE) + CLOSE, Quoted(k), " " + w);
  }

  /** A name is read to the value that belongs to it if no earlier field holds the name. */
  lemma ValueAtName(fs: seq<Field>, n: nat)
    requires n < |fs| && AllTidy(fs) && Plain(fs[n]) && Key(fs[n].key)
    requires forall m :: 0 <= m < n ==> !Names(fs[m], fs[n].key)
    ensures ValueOf(FieldsText(fs, TABLE) + CLOSE, fs[n].key) == Inner(fs[n])
  {
    ValueFollows(fs, n, fs[n].key);
    ValueIs(FieldsText(fs, TABLE) + CLOSE, fs[n].key, fs[n], Rest(fs, n));
  }

  lemma ValueIs(s: string, k: string, f: Field, r: string)
    requires AfterColon(s, k) == Some(" " + (Printed(f) + r)) && Plain(f) && Ends(r)
    ensures ValueOf(s, k) == Inner(f)
  {
    ValueText(f, r);
  }

  /** The `n`-th field holds the name as its value, and none before it does. */
  predicate Diverts(fs: seq<Field>, n: nat, k: string) {
    && n + 1 < |fs| && Key(k) && fs[n].Word? && fs[n].value == k && fs[n].key != k
    && forall m :: 0 <= m < n ==> !Names(fs[m], k)
  }

  /** Where a field holds the name as its value, the name leads to what belongs to the next field. */
  lemma ValueAfterValue(fs: seq<Field>, n: nat, k: string)
    requires AllTidy(fs) && Diverts(fs, n, k) && Plain(fs[n + 1])
    ensures ValueOf(FieldsText(fs, TABLE) + CLOSE, k) == Inner(fs[n + 1])
  {
    var f, r, s, text := fs[n + 1], Rest(fs, n + 1), FieldsText(fs, TABLE) + CLOSE, FieldsText(fs[n + 1..], TABLE);
    AfterValue(fs, n, s, k, text);
    StretchFrom(fs, n + 1, Printed(f) + r);
    NextValue(f, r, s, k, text);
  }

  lemma NextValue(f: Field, r: string, s: string, k: string, text: string)
    requires Plain(f) && Ends(r) && Key(k) && text + CLOSE == Quoted(f.key) + (":" + (" " + (Printed(f) + r)))
    requires After(s, Quoted(k)) == Some(Quoted(k) + (TABLE.comma + text) + CLOSE)
    ensures ValueOf(s, k) == Inner(f)
  {
    PastName(s, k, text, f.key, TABLE, CLOSE, " " + (Printed(f) + r));
    ValueIs(s, k, f, r);
  }

  lemma AfterValue(fs: seq<Field>, n: nat, s: string, k: string, text: string)
    requires AllTidy(fs) && Diverts(fs, n, k)
    requires s == FieldsText(fs, TABLE) + CLOSE && text == FieldsText(fs[n + 1..], TABLE)
    ensures After(s, Quoted(k)) == Some(Quoted(k) + (TABLE.comma + text) + CLOSE)
  {
    PassFields(fs, n, TABLE, CLOSE, k);
    assert fs[n..][0] == fs[n] && fs[n..][1..] == fs[n + 1..];
    LocateValue(fs[n..], TABLE, CLOSE, k);
  }

  predicate Printable(u: User) {
    Safe(u.username) && Safe(u.password) && IsInt(u.elo) && IsInt(u.wins) && IsInt(u.losses)
  }

  lemma NumberPlain(key: string, n: int)
    requires '"' !in key && ':' !in key
    ensures Plain(Bare(key, Decimal(n)))
  {
    var s := Decimal(n);
    assert s[0] in s;
  }

  lemma NumbersPlain(u: User)
    ensures var fs := UserFields(u); Plain(fs[2]) && Plain(fs[3]) && Plain(fs[4])
  {
    NumberPlain("elo", u.elo);
    NumberPlain("wins", u.wins);
    NumberPlain("losses", u.losses);
  }

  /** Only quotes within name or password can upset the order of the fields. */
  lemma UserTidy(u: User)
    requires '"' !in u.username && '"' !in u.password
    ensures AllTidy(UserFields(u))
  {
    var fs := UserFields(u);
    NumbersPlain(u);
    assert Tidy(fs[0]) && Tidy(fs[1]);
  }

  lemma UserPlain(u: User)
    requires Printable(u)
    ensures AllPlain(UserFields(u)) && AllTidy(UserFields(u))
  {
    var fs := UserFields(u);
    NumbersPlain(u);
    assert Plain(fs[0]) && Plain(fs[1]);
  }

  /** A number of a user as it is read back: a user or password called like it gets in the way. */
  function SeenNumber(u: User, key: string, own: int, default: int): Option<int> {
    if u.username == key then NumberOr(u.password, default)
    else if u.password == key then Some(u.elo)
    else Some(own)
  }

  function SeenUser(u: User): Option<User> {
    var elo :- SeenNumber(u, "elo", u.elo, DEFAULT_ELO);
    var wins :- SeenNumber(u, "wins", u.wins, 0);
    var losses :- SeenNumber(u, "losses", u.losses, 0);
    Some(u.(elo := elo, wins := wins, losses := losses))
  }

  lemma NameReads(u: User, fs: seq<Field>)
    requires Printable(u) && fs == UserFields(u) && AllPlain(fs) && AllTidy(fs)
    ensures ValueOf(Stretch(u), "username") == u.username
  {
    ValueAtName(fs, 0);
  }

  lemma PasswordReads(u: User, fs: seq<Field>)
    requires Printable(u) && fs == UserFields(u) && AllPlain(fs) && AllTidy(fs)
    ensures ValueOf(Stretch(u), "password") == u.password
  {
    if u.username == "password" {
      ValueAfterValue(fs, 0, "password");
    } else {
      ValueAtName(fs, 1);
    }
  }

  /** Where the numbers stand is sure; a name that is called like one must lead to a plain password. */
  predicate NumbersSure(u: User, fs: seq<Field>) {
    && fs == UserFields(u) && AllTidy(fs) && Plain(fs[2]) && Plain(fs[3]) && Plain(fs[4])
    && IsInt(u.elo) && IsInt(u.wins) && IsInt(u.losses)
    && (u.username in {"elo", "wins", "losses"} ==> Plain(fs[1]))
  }

  lemma NumberReads(u: User, fs: seq<Field>, n: nat, key: string, own: int, default: int)
    requires NumbersSure(u, fs) && key in {"elo", "wins", "losses"} && IsInt(own)
    requires 2 <= n < 5 && fs[n] == Bare(key, Decimal(own)) && Plain(fs[n])
    requires Key(key) && forall m :: 0 <= m < n ==> fs[m].key != key
    ensures NumberOr(ValueOf(Stretch(u), key), default) == SeenNumber(u, key, own, default)
  {
    StoiPlain(own);
    StoiPlain(u.elo);
    if u.username == key {
      ValueAfterValue(fs, 0, key);
    } else if u.password == key {
      ValueAfterValue(fs, 1, key);
    } else {
      ValueAtName(fs, n);
    }
  }

  lemma EloReads(u: User, fs: seq<Field>)
    requires NumbersSure(u, fs)
    ensures NumberOr(ValueOf(Stretch(u), "elo"), DEFAULT_ELO) == SeenNumber(u, "elo", u.elo, DEFAULT_ELO)
  {
    NumberReads(u, fs, 2, "elo", u.elo, DEFAULT_ELO);
  }

  lemma WinsRead(u: User, fs: seq<Field>)
    requires NumbersSure(u, fs)
    ensures NumberOr(ValueOf(Stretch(u), "wins"), 0) == SeenNumber(u, "wins", u.wins, 0)
  {
    NumberReads(u, fs, 3, "wins", u.wins, 0);
  }

  lemma LossesRead(u: User, fs: seq<Field>)
    requires NumbersSure(u, fs)
    ensures NumberOr(ValueOf(Stretch(u), "losses"), 0) == SeenNumber(u, "losses", u.losses, 0)
  {
    NumberReads(u, fs, 4, "losses", u.losses, 0);
  }

  /** What is read back of any user whose name and password are safe. */
  lemma UserReads(u: User)
    requires Printable(u)
    ensures ReadUser(Stretch(u)) == SeenUser(u)
  {
    var fs := UserFields(u);
    UserPlain(u);
    NameReads(u, fs);
    PasswordReads(u, fs);
    assert NumbersSure(u, fs);
    EloReads(u, fs);
    WinsRead(u, fs);
    LossesRead(u, fs);
  }

  /** A user or password called like a number that is stored further on hides it, unless both happen to agree. */
  predicate Unconfused(u: User) {
    && (u.username == "elo" ==> NumberOr(u.password, DEFAULT_ELO) == Some(u.elo))
    && (u.username == "wins" ==> NumberOr(u.password, 0) == Some(u.wins))
    && (u.username == "losses" ==> NumberOr(u.password, 0) == Some(u.losses))
    && (u.password == "wins" && u.username != "wins" ==> u.elo == u.wins)
    && (u.password == "losses" && u.username != "losses" ==> u.elo == u.losses)
  }

  /** What is taken from after a colon stops nowhere short, so that it would be read again as it is. */
  lemma ValueSafe(obj: string, key: string)
    ensures Safe(ValueOf(obj, key))
  {
    var t := AfterColon(obj, key);
    if t.Some? {
      OpeningSkipped(t.value);
      UpToSafe(SkipOpening(t.value));
    }
  }

  lemma {:induction false} OpeningSkipped(t: string)
    ensures var r := SkipOpening(t); r != "" ==> r[0] != ' '
  {
    if t != "" {
      OpeningSkipped(t[1..]);
    }
  }

  lemma {:induction false} UpToSafe(t: string)
    ensures var v := UpTo(t, VALUE_ENDS); (forall c :: c in v ==> c !in VALUE_ENDS) && (v != "" ==> v[0] == t[0])
  {
    if t != "" {
      UpToSafe(t[1..]);
    }
  }

  lemma NumberFits(s: string, default: int)
    requires IsInt(default)
    ensures NumberOr(s, default).Some? ==> IsInt(NumberOr(s, default).value)
  {
  }

  /** Nothing but a safe name, a safe password and numbers is ever read. */
  lemma ReadPrintable(obj: string)
    ensures ReadUser(obj).Some? ==> Printable(ReadUser(obj).value)
  {
    ValueSafe(obj, "username");
    ValueSafe(obj, "password");
    NumberFits(ValueOf(obj, "elo"), DEFAULT_ELO);
    NumberFits(ValueOf(obj, "wins"), 0);
    NumberFits(ValueOf(obj, "losses"), 0);
  }

  lemma ReadsExactly(u: User)
    ensures ReadUser(Stretch(u)) == Some(u) <==> Printable(u) && Unconfused(u)
  {
    ReadPrintable(Stretch(u));
    if Printable(u) {
      UserReads(u);
      SeenExactly(u);
    }
  }

  lemma SeenExactly(u: User)
    ensures SeenUser(u) == Some(u) <==> Unconfused(u)
  {
  }

  // ---------- the whole file ----------

  const OPEN := "  {\n    "
  const BETWEEN := ",\n  {\n    "
  const END := "\n]\n"

  /** What follows the opening of the first entry. */
  function Body(ts: seq<string>): string
    requires ts != []
  {
    ts[0] + "}" + (if |ts| == 1 then END else BETWEEN + Body(ts[1..]))
  }

  function Wrapped(ts: seq<string>): (r: seq<string>)
    ensures |r| == |ts| && forall i :: 0 <= i < |ts| ==> r[i] == OPEN + ts[i] + "}"
  {
    seq(|ts|, i requires 0 <= i < |ts| => OPEN + ts[i] + "}")
  }

  lemma {:induction false} FileBody(ts: seq<string>)
    requires ts != []
    ensures Joined(Wrapped(ts), ",\n") + END == OPEN + Body(ts)
  {
    var ws, end := Wrapped(ts), END;
    if |ts| == 1 {
      assert ws[0] + end == OPEN + (ts[0] + "}" + end);
    } else {
      FileBody(ts[1..]);
      assert ws[1..] == Wrapped(ts[1..]);
      Chain(ts[0], Joined(ws[1..], ",\n"), end, Body(ts[1..]));
    }
  }

  lemma Chain(first: string, more: string, end: string, body: string)
    requires more + end == OPEN + body
    ensures (OPEN + first + "}") + ",\n" + more + end == OPEN + (first + "}" + (BETWEEN + body))
  {
    assert BETWEEN == ",\n" + OPEN;
    assert (OPEN + first + "}") + ",\n" + more + end == (OPEN + first + "}") + ",\n" + (more + end);
  }

  /** What a stretch between "username" and the closing brace looks like. */
  predicate IsStretch(t: string) {
    '}' !in t && Quoted("username") <= t
  }

  lemma StretchShape(u: User)
    requires Printable(u)
    ensures IsStretch(Stretch(u))
  {
    var fs := UserFields(u);
    UserPlain(u);
    KeysWithoutBrace(u);
    NoBrace(fs);
    StartsWithName(u);
  }

  lemma KeysWithoutBrace(u: User)
    ensures forall f :: f in UserFields(u) ==> '}' !in f.key
  {
  }

  lemma StartsWithName(u: User)
    ensures Quoted("username") <= Stretch(u)
  {
  }

  lemma NoBrace(fs: seq<Field>)
    requires AllPlain(fs) && forall f :: f in fs ==> '}' !in f.key
    ensures '}' !in FieldsText(fs, TABLE)
  {
    forall f | f in fs ensures '}' !in Inner(f) { assert Plain(f); }
    FieldsWithout(fs, TABLE, '}');
  }

  lemma StretchFirst(s: string, before: string, x: string, t: string, r: string, pos: nat, b: nat, e: nat, after: nat)
    requires s == before + x + t + ("}" + r) && '"' !in x && IsStretch(t)
    requires pos == |before| && b == pos + |x| && e == b + |t| && after == e + 1
    ensures after <= |s| && Stretches(s, pos) == [t] + Stretches(s, after)
  {
    var q := Quoted("username");
    var rest := t[|q|..] + ("}" + r);
    assert s == before + (x + q + rest);
    FindIn(s, before, x, q, rest, pos, b);
    assert s == (before + x) + (t + "}" + r);
    FindIn(s, before + x, t, "}", r, b, e);
    Middle(s, before + x, t, "}" + r);
    StretchesStep(s, pos, b, e, t, after);
  }

  lemma NoStretches(s: string, before: string, x: string)
    requires s == before + x && '"' !in x
    ensures Stretches(s, |before|) == []
  {
    assert s[|before|..] == x;
    FindMeaning(x, Quoted("username"));
    assert forall i :: 0 <= i < |x| ==> x[i..][0] == x[i];
    assert forall i :: !OccursAt(x, Quoted("username"), i);
  }

  lemma StretchesCons(s: string, before: string, x: string, t: string, r: string, next: string)
    requires s == before + x + (t + "}" + r) && '"' !in x && IsStretch(t)
    requires next == before + x + t + "}"
    ensures s == next + r && Stretches(s, |before|) == [t] + Stretches(s, |next|)
  {
    Onward(before, x, t, r);
    StretchFirst(s, before, x, t, r, |before|, |before + x|, |before + x + t|, |next|);
  }

  lemma Onward(before: string, x: string, t: string, r: string)
    ensures before + x + (t + "}" + r) == before + x + t + ("}" + r)
    ensures before + x + (t + "}" + r) == (before + x + t + "}") + r
  {
  }

  lemma StretchesNext(s: string, before: string, x: string, t: string, body: string, next: string)
    requires s == before + x + (t + "}" + (BETWEEN + body)) && '"' !in x && IsStretch(t)
    requires next == before + x + t + "}"
    ensures s == next + BETWEEN + body && Stretches(s, |before|) == [t] + Stretches(s, |next|)
  {
    StretchesCons(s, before, x, t, BETWEEN + body, next);
    Associate(next, BETWEEN, body);
  }

  lemma StretchesLast(s: string, before: string, x: string, t: string, next: string)
    requires s == before + x + (t + "}" + END) && '"' !in x && IsStretch(t)
    requires next == before + x + t + "}"
    ensures Stretches(s, |before|) == [t]
  {
    StretchesCons(s, before, x, t, END, next);
    NoStretches(s, next, END);
  }

  /** The entries of the file are told apart again. */
  lemma {:induction false} StretchesBody(s: string, before: string, x: string, ts: seq<string>)
    requires ts != [] && s == before + x + Body(ts) && '"' !in x && forall t :: t in ts ==> IsStretch(t)
    ensures Stretches(s, |before|) == ts
    decreases |ts|
  {
    var t, next := ts[0], before + x + ts[0] + "}";
    assert t in ts;
    if |ts| == 1 {
      StretchesLast(s, before, x, t, next);
      assert ts == [t];
    } else {
      var rest := ts[1..];
      assert ts == [t] + rest;
      StretchesNext(s, before, x, t, Body(rest), next);
      StretchesBody(s, next, BETWEEN, rest);
    }
  }

  function Parts(us: seq<User>): (r: seq<string>)
    ensures |r| == |us| && forall i :: 0 <= i < |us| ==> r[i] == Stretch(us[i])
  {
    seq(|us|, i requires 0 <= i < |us| => Stretch(us[i]))
  }

  lemma UserOpens(u: User)
    ensures UserText(u) == OPEN + Stretch(u) + "}"
  {
  }

  lemma FileIs(us: seq<User>)
    ensures FileText(us) == "[\n" + Joined(Wrapped(Parts(us)), ",\n") + END
  {
    forall i | 0 <= i < |us| ensures UserTexts(us)[i] == Wrapped(Parts(us))[i] {
      UserOpens(us[i]);
    }
    assert UserTexts(us) == Wrapped(Parts(us));
  }

  lemma FileParts(us: seq<User>)
    requires forall i :: 0 <= i < |us| ==> Printable(us[i])
    ensures Stretches(FileText(us), 0) == Parts(us)
  {
    var ts := Parts(us);
    forall t | t in ts ensures IsStretch(t) {
      var i :| 0 <= i < |us| && ts[i] == t;
      StretchShape(us[i]);
    }
    FileIs(us);
    PartsFound("[\n" + Joined(Wrapped(ts), ",\n") + END, ts);
  }

  lemma PartsFound(s: string, ts: seq<string>)
    requires s == "[\n" + Joined(Wrapped(ts), ",\n") + END && forall t :: t in ts ==> IsStretch(t)
    ensures Stretches(s, 0) == ts
  {
    if ts == [] {
      assert s == "" + "[\n" + END;
      NoStretches(s, "", "[\n" + END);
    } else {
      FileBody(ts);
      assert s == "[\n" + (Joined(Wrapped(ts), ",\n") + END);
      assert s == "" + ("[\n" + OPEN) + Body(ts);
      StretchesBody(s, "", "[\n" + OPEN, ts);
    }
  }

  // ---------- the table ----------

  function EnterAll(us: seq<User>, users: Users): Users
    decreases |us|
  {
    if us == [] then users else EnterAll(us[1..], Enter(users, us[0]))
  }

  predicate AllThere(seen: seq<Option<User>>) {
    forall i :: 0 <= i < |seen| ==> seen[i].Some?
  }

  function Values(seen: seq<Option<User>>): (us: seq<User>)
    requires AllThere(seen)
    ensures |us| == |seen| && forall i :: 0 <= i < |seen| ==> us[i] == seen[i].value
  {
    seq(|seen|, i requires 0 <= i < |seen| => seen[i].value)
  }

  /** Loading enters the users in turn if all can be read, and fails otherwise. */
  lemma {:induction false} TabledAll(texts: seq<string>, read: string -> Option<User>, seen: seq<Option<User>>,
                                     users: Users)
    requires |texts| == |seen| && forall i :: 0 <= i < |seen| ==> read(texts[i]) == seen[i]
    ensures Tabled(texts, read, users) == if AllThere(seen) then Some(EnterAll(Values(seen), users)) else None
    decreases |seen|
  {
    if seen != [] && seen[0].Some? {
      var next := Enter(users, seen[0].value);
      TabledAll(texts[1..], read, seen[1..], next);
      assert AllThere(seen) <==> AllThere(seen[1..]) by {
        assert forall i :: 0 < i < |seen| ==> seen[i] == seen[1..][i - 1];
      }
      if AllThere(seen) {
        assert Values(seen)[0] == seen[0].value && Values(seen)[1..] == Values(seen[1..]);
      }
    }
  }

  predicate Named(us: seq<User>, name: string) {
    exists i :: 0 <= i < |us| && us[i].username == name
  }

  /** Entering users of different names one by one leaves each under its name, but for one without a name. */
  lemma {:induction false} EnteredIs(us: seq<User>, users: Users, name: string)
    requires forall i, j :: 0 <= i < j < |us| ==> us[i].username != us[j].username
    ensures name in EnterAll(us, users) <==> name in users || (name != "" && Named(us, name))
    ensures forall i :: 0 <= i < |us| && us[i].username == name != "" ==>
      name in EnterAll(us, users) && EnterAll(us, users)[name] == us[i]
    ensures (name == "" || !Named(us, name)) && name in users ==>
      name in EnterAll(us, users) && EnterAll(us, users)[name] == users[name]
    decreases |us|
  {
    if us != [] {
      var rest := us[1..];
      assert forall i :: 0 <= i < |rest| ==> rest[i] == us[i + 1];
      assert forall i :: 0 < i < |us| ==> us[i] == rest[i - 1];
      EnteredIs(rest, Enter(users, us[0]), name);
      if Named(rest, name) {
        var i :| 0 <= i < |rest| && rest[i].username == name;
        assert us[i + 1].username == name;
      }
      if us[0].username == name {
        assert !Named(rest, name);
      }
    }
  }

  /** Every user is stored under its own name, and nothing in it stops the reading short. */
  predicate Writable(users: Users) {
    forall x :: x in users ==> users[x].username == x && Printable(users[x])
  }

  /** What is read of each user. */
  function SeenAll(us: seq<User>): (seen: seq<Option<User>>)
    ensures |seen| == |us| && forall i :: 0 <= i < |us| ==> seen[i] == SeenUser(us[i])
  {
    seq(|us|, i requires 0 <= i < |us| => SeenUser(us[i]))
  }

  lemma FileLoads(us: seq<User>)
    requires forall i :: 0 <= i < |us| ==> Printable(us[i])
    ensures LoadedFrom(FileText(us)) ==
      if AllThere(SeenAll(us)) then Some(EnterAll(Values(SeenAll(us)), map[])) else None
  {
    FileParts(us);
    forall i | 0 <= i < |us| ensures ReadUser(Parts(us)[i]) == SeenAll(us)[i] {
      UserReads(us[i]);
    }
    TabledAll(Parts(us), ReadUser, SeenAll(us), map[]);
  }

  /** The users as read form the table they were written from exactly when each is read as it was and has a name. */
  lemma Restored(order: seq<string>, users: Users, us: seq<User>, read: seq<User>)
    requires Enumerates(order, users) && us == Listed(order, users) && |read| == |us|
    requires forall i :: 0 <= i < |us| ==> us[i].username == read[i].username == order[i]
    ensures EnterAll(read, map[]) == users <==> forall i :: 0 <= i < |us| ==> order[i] != "" && read[i] == us[i]
  {
    var table := EnterAll(read, map[]);
    assert forall i :: 0 <= i < |order| ==> order[i] in order && order[i] in users;
    forall i | 0 <= i < |us|
      ensures order[i] in table <==> order[i] != ""
      ensures order[i] != "" ==> table[order[i]] == read[i]
    {
      EnteredIs(read, map[], order[i]);
      assert Named(read, order[i]);
    }
    if forall i :: 0 <= i < |us| ==> order[i] != "" && read[i] == us[i] {
      TableIs(order, users, us, read);
    }
  }

  lemma TableIs(order: seq<string>, users: Users, us: seq<User>, read: seq<User>)
    requires Enumerates(order, users) && us == Listed(order, users) && read == us
    requires forall i :: 0 <= i < |us| ==> us[i].username == order[i] != ""
    ensures EnterAll(read, map[]) == users
  {
    var table := EnterAll(read, map[]);
    forall x ensures x in table <==> x in users {
      EnteredIs(read, map[], x);
      if x in users {
        var i :| 0 <= i < |order| && order[i] == x;
        assert read[i].username == x;
      }
    }
    forall x | x in users ensures x in table && table[x] == users[x] {
      EnteredIs(read, map[], x);
      assert x in order;
      var i :| 0 <= i < |order| && order[i] == x;
      assert read[i] == users[x];
    }
  }

  lemma WritableRoundTrip(order: seq<string>, users: Users)
    requires Enumerates(order, users) && Writable(users)
    ensures LoadedFrom(FileText(Listed(order, users))) == Some(users) <==>
      forall x :: x in users ==> x != "" && Unconfused(users[x])
  {
    var us := Listed(order, users);
    forall i | 0 <= i < |us|
      ensures us[i].username == order[i] && Printable(us[i]) && order[i] in users && us[i] == users[order[i]]
    {
      assert order[i] in order;
    }
    LoadsExactly(order, users, us, SeenAll(us));
    forall i | 0 <= i < |us| ensures SeenUser(us[i]) == Some(us[i]) <==> Unconfused(users[order[i]]) {
      SeenExactly(us[i]);
    }
    EachInOrder(order, users);
  }

  lemma LoadsExactly(order: seq<string>, users: Users, us: seq<User>, seen: seq<Option<User>>)
    requires Enumerates(order, users) && us == Listed(order, users) && seen == SeenAll(us)
    requires forall i :: 0 <= i < |us| ==> us[i].username == order[i] && Printable(us[i])
    ensures LoadedFrom(FileText(us)) == Some(users) <==>
      forall i :: 0 <= i < |us| ==> order[i] != "" && seen[i] == Some(us[i])
  {
    FileLoads(us);
    ReadExactly(order, users, us, seen, LoadedFrom(FileText(us)));
  }

  lemma ReadExactly(order: seq<string>, users: Users, us: seq<User>, seen: seq<Option<User>>, loaded: Option<Users>)
    requires Enumerates(order, users) && us == Listed(order, users) && seen == SeenAll(us)
    requires forall i :: 0 <= i < |us| ==> us[i].username == order[i]
    requires loaded == if AllThere(seen) then Some(EnterAll(Values(seen), map[])) else None
    ensures loaded == Some(users) <==> forall i :: 0 <= i < |us| ==> order[i] != "" && seen[i] == Some(us[i])
  {
    if AllThere(seen) {
      var read := Values(seen);
      assert forall i :: 0 <= i < |us| ==> read[i].username == order[i];
      Restored(order, users, us, read);
    }
  }

  lemma EachInOrder(order: seq<string>, users: Users)
    requires Enumerates(order, users)
    ensures (forall x :: x in users ==> x != "" && Unconfused(users[x])) <==>
      forall i :: 0 <= i < |order| ==> order[i] in users && order[i] != "" && Unconfused(users[order[i]])
  {
    assert forall i :: 0 <= i < |order| ==> order[i] in order;
    forall x | x in users ensures exists i :: 0 <= i < |order| && order[i] == x {
      assert x in order;
    }
  }

  /** A table only ever takes in users that it could have written. */
  lemma {:induction false} TabledWritable(objs: seq<string>, read: string -> Option<User>, users: Users)
    requires Kept(users) && forall o :: read(o).Some? ==> Printable(read(o).value)
    ensures Tabled(objs, read, users).Some? ==> Kept(Tabled(objs, read, users).value)
    decreases |objs|
  {
    if objs != [] && read(objs[0]).Some? {
      TabledWritable(objs[1..], read, Enter(users, read(objs[0]).value));
    }
  }

  predicate Kept(users: Users) {
    Writable(users) && "" !in users
  }

  /** Whatever the file holds, the table that is loaded could have been written. */
  lemma LoadedWritable(file: string)
    ensures LoadedFrom(file).Some? ==> Kept(LoadedFrom(file).value)
  {
    forall o | ReadUser(o).Some? ensures Printable(ReadUser(o).value) { ReadPrintable(o); }
    TabledWritable(Stretches(file, 0), ReadUser, map[]);
  }

  /**
   Loading what was saved restores the table, in whatever order it was written, exactly when every user has a name and
   is stored under it, neither name nor password holds what ends a value or begins with a space, and neither hides a
   number.
   */
  lemma TableRoundTrip(order: seq<string>, users: Users)
    requires Enumerates(order, users)
    ensures LoadedFrom(FileText(Listed(order, users))) == Some(users) <==>
      forall x :: x in users ==>
        x != "" && users[x].username == x && Printable(users[x]) && Unconfused(users[x])
  {
    LoadedWritable(FileText(Listed(order, users)));
    if Writable(users) {
      WritableRoundTrip(order, users);
    }
  }

  /** A number that is not there is read as the one a new user starts with. */
  lemma MissingNumbers(obj: string)
    ensures ReadUser(obj).Some? && (forall i :: !OccursAt(obj, Quoted("elo"), i)) ==> ReadUser(obj).value.elo == 1200
    ensures ReadUser(obj).Some? && (forall i :: !OccursAt(obj, Quoted("wins"), i)) ==> ReadUser(obj).value.wins == 0
    ensures ReadUser(obj).Some? && (forall i :: !OccursAt(obj, Quoted("losses"), i)) ==> ReadUser(obj).value.losses == 0
  {
    FindMeaning(obj, Quoted("elo"));
    FindMeaning(obj, Quoted("wins"));
    FindMeaning(obj, Quoted("losses"));
  }

  // ---------- users that do not come back ----------

  /** A player called "wins" with an empty password comes back without the games won. */
  lemma CalledLikeANumber()
    ensures var u := User("wins", "", 1200, 7, 0);
      ReadUser(Stretch(u)) == Some(u.(wins := 0)) && ReadUser(Stretch(u)) != Some(u)
  {
    UserReads(User("wins", "", 1200, 7, 0));
  }

  /** A value that holds a comma is read up to the comma. */
  lemma CutAtComma(v: string, more: string, r: string)
    requires v != "" && Safe(v)
    ensures UpTo(SkipOpening(" " + (Quoted(v + "," + more) + r)), VALUE_ENDS) == v
  {
    var tail := "," + more + "\"" + r;
    var t := " " + (Quoted(v + "," + more) + r);
    assert t[1..][1..] == v + tail;
    assert v[0] in v;
    assert SkipOpening(v + tail) == v + tail;
    UpToAfter(v, tail);
  }

  /** A password with a comma in it comes back without what follows the comma. */
  lemma PasswordWithComma(u: User, v: string, more: string)
    requires v != "" && Safe(v) && '"' !in more && u.password == v + "," + more
    requires Safe(u.username) && u.username !in {"password", "elo", "wins", "losses"}
    requires IsInt(u.elo) && IsInt(u.wins) && IsInt(u.losses)
    ensures ReadUser(Stretch(u)) == Some(u.(password := v))
  {
    var fs := UserFields(u);
    UserTidy(u);
    WordsRead(u, fs, v, more);
    NumbersRead(u, fs);
  }

  lemma WordsRead(u: User, fs: seq<Field>, v: string, more: string)
    requires v != "" && Safe(v) && u.password == v + "," + more && Safe(u.username) && u.username != "password"
    requires fs == UserFields(u) && AllTidy(fs)
    ensures ValueOf(Stretch(u), "username") == u.username && ValueOf(Stretch(u), "password") == v
  {
    ValueAtName(fs, 0);
    PasswordCut(fs, v, more);
  }

  lemma PasswordCut(fs: seq<Field>, v: string, more: string)
    requires |fs| == 5 && AllTidy(fs) && fs[1] == Word("password", v + "," + more) && !Names(fs[0], "password")
    requires v != "" && Safe(v)
    ensures ValueOf(FieldsText(fs, TABLE) + CLOSE, "password") == v
  {
    ValueFollows(fs, 1, "password");
    CutAtComma(v, more, Rest(fs, 1));
  }

  lemma NumbersRead(u: User, fs: seq<Field>)
    requires fs == UserFields(u) && AllTidy(fs) && ',' in u.password && u.username !in {"elo", "wins", "losses"}
    requires IsInt(u.elo) && IsInt(u.wins) && IsInt(u.losses)
    ensures NumberOr(ValueOf(Stretch(u), "elo"), DEFAULT_ELO) == Some(u.elo)
    ensures NumberOr(ValueOf(Stretch(u), "wins"), 0) == Some(u.wins)
    ensures NumberOr(ValueOf(Stretch(u), "losses"), 0) == Some(u.losses)
  {
    NumbersPlain(u);
    assert NumbersSure(u, fs);
    EloReads(u, fs);
    WinsRead(u, fs);
    LossesRead(u, fs);
  }
}
