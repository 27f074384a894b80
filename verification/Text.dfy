/**
 Searching strings, and numbers in decimal: what the printers and parsers are written with.  `Find` is the library's
 search; `After` is what is left of a string from the place found on, and the proofs about parsing are made with it.
 */
module Text {
  import opened Wrappers

  const INT_MIN := -0x8000_0000
  const INT_MAX := 0x7fff_ffff

  // ---------- searching ----------

  function Shift(r: Option<nat>, n: nat): Option<nat> {
    match r
    case None => None
    case Some(i) => Some(i + n)
  }

  /** Where `p` first occurs in `s`. */
  function Find(s: string, p: string): (r: Option<nat>)
    ensures r.Some? ==> r.value + |p| <= |s|
  {
    if p <= s then Some(0) else if s == "" then None else Shift(Find(s[1..], p), 1)
  }

  /** Where `p` first occurs in `s` at `from` or later. */
  function FindFrom(s: string, p: string, from: nat): (r: Option<nat>)
    ensures r.Some? ==> from <= r.value && r.value + |p| <= |s|
  {
    if from <= |s| then Shift(Find(s[from..], p), from) else None
  }

  /** Where the first of the characters `stops` is in `s`. */
  function FirstOf(s: string, stops: set<char>): (r: Option<nat>)
    ensures r.Some? ==> r.value < |s|
  {
    if s == "" then None else if s[0] in stops then Some(0) else Shift(FirstOf(s[1..], stops), 1)
  }

  predicate Without(s: string, c: char) {
    c !in s
  }

  predicate OccursAt(s: string, p: string, i: nat) {
    i <= |s| && p <= s[i..]
  }

  /** The first occurrence, and no other. */
  lemma {:induction false} FindMeaning(s: string, p: string)
    ensures match Find(s, p)
            case None => forall i :: !OccursAt(s, p, i)
            case Some(n) => OccursAt(s, p, n) && forall i :: 0 <= i < n ==> !OccursAt(s, p, i)
  {
    if !(p <= s) && s != "" {
      FindMeaning(s[1..], p);
      forall i: nat | 0 < i ensures OccursAt(s, p, i) <==> OccursAt(s[1..], p, i - 1) {
        if i <= |s| { assert s[i..] == s[1..][i - 1..]; }
      }
      assert !OccursAt(s, p, 0) by { assert s[0..] == s; }
    } else {
      assert s[0..] == s;
      if s == "" && !(p <= s) {
        forall i: nat ensures !OccursAt(s, p, i) { if i <= |s| { assert s[i..] == s; } }
      }
    }
  }

  /** What is left of `s` from the first occurrence of `p` on. */
  function After(s: string, p: string): Option<string> {
    if p <= s then Some(s) else if s == "" then None else After(s[1..], p)
  }

  lemma {:induction false} AfterFind(s: string, p: string)
    ensures After(s, p) == match Find(s, p) case None => None case Some(i) => Some(s[i..])
  {
    if !(p <= s) && s != "" {
      AfterFind(s[1..], p);
    } else if p <= s {
      assert s[0..] == s;
    }
  }

  /** Nothing is found inside a stretch without the first character of what is sought. */
  lemma {:induction false} SkipPlain(x: string, r: string, p: string)
    requires p != "" && p[0] !in x
    ensures After(x + r, p) == After(r, p)
  {
    if x == "" {
      assert x + r == r;
    } else {
      SkipPlain(x[1..], r, p);
      assert (x + r)[1..] == x[1..] + r;
      assert (x + r)[0] == x[0];
    }
  }

  /** What follows a stretch without its first character is found right there. */
  lemma {:induction false} FindAfter(x: string, p: string, r: string)
    requires p != "" && p[0] !in x
    ensures Find(x + p + r, p) == Some(|x|)
  {
    var s := x + p + r;
    if x == "" {
      assert s == p + r;
    } else {
      FindAfter(x[1..], p, r);
      assert s[1..] == x[1..] + p + r && s[0] == x[0];
    }
  }

  lemma FindIn(s: string, before: string, x: string, p: string, r: string, pos: nat, found: nat)
    requires s == before + (x + p + r) && p != "" && p[0] !in x && pos == |before| && found == pos + |x|
    ensures FindFrom(s, p, pos) == Some(found)
  {
    assert s[pos..] == x + p + r;
    FindAfter(x, p, r);
  }

  lemma Middle(s: string, x: string, v: string, r: string)
    requires s == x + v + r
    ensures s[|x|..|x| + |v|] == v && s[|x| + |v|..] == r
  {
  }

  lemma Associate(x: string, y: string, z: string)
    ensures x + (y + z) == x + y + z
  {
  }

  lemma {:induction false} FirstOfAfter(x: string, r: string, stops: set<char>)
    requires forall c :: c in x ==> c !in stops
    requires r != "" && r[0] in stops
    ensures FirstOf(x + r, stops) == Some(|x|)
  {
    if x == "" {
      assert x + r == r;
    } else {
      assert x[0] in x;
      FirstOfAfter(x[1..], r, stops);
      assert (x + r)[1..] == x[1..] + r;
    }
  }

  // ---------- lists ----------

  function Joined(ts: seq<string>, sep: string): string {
    if ts == [] then ""
    else if |ts| == 1 then ts[0]
    else ts[0] + sep + Joined(ts[1..], sep)
  }

  lemma {:induction false} JoinedSnoc(ts: seq<string>, sep: string, i: nat)
    requires i < |ts|
    ensures Joined(ts[..i + 1], sep) == (if i > 0 then Joined(ts[..i], sep) + sep else "") + ts[i]
    decreases i
  {
    if i == 0 {
      assert ts[..1] == [ts[0]];
    } else {
      JoinedSnoc(ts[1..], sep, i - 1);
      assert ts[..i + 1][1..] == ts[1..][..i];
      assert ts[..i][1..] == ts[1..][..i - 1];
    }
  }

  // ---------- quoted words ----------

  function Quoted(k: string): string {
    "\"" + k + "\""
  }

  lemma {:induction false} SameWord(k: string, x: string, u: string, v: string)
    requires '"' !in k && '"' !in x
    requires k + "\"" + u <= x + "\"" + v
    ensures k == x && u <= v
  {
    var l, m := k + "\"" + u, x + "\"" + v;
    assert l[0] == m[0] && l[1..] <= m[1..];
    if k != "" {
      assert l[0] == k[0] && k[0] in k;
      assert l[1..] == k[1..] + "\"" + u && m[1..] == x[1..] + "\"" + v;
      SameWord(k[1..], x[1..], u, v);
    } else {
      assert l[1..] == u && m[1..] == v;
    }
  }

  /** A different quoted word is passed over, up to its closing quote. */
  lemma SkipWord(x: string, r: string, k: string)
    requires '"' !in k && '"' !in x && x != k
    ensures After(Quoted(x) + r, Quoted(k)) == After("\"" + r, Quoted(k))
  {
    var s, rest := Quoted(x) + r, x + ("\"" + r);
    assert s == "\"" + rest && s[1..] == rest;
    if Quoted(k) <= s {
      assert Quoted(k)[1..] <= s[1..];
      assert Quoted(k)[1..] == k + "\"" + "";
      assert rest == x + "\"" + r;
      SameWord(k, x, "", r);
      assert false;
    }
    SkipPlain(x, "\"" + r, Quoted(k));
  }

  /** A quote is passed over when what follows it does not start the word. */
  lemma SkipQuote(r: string, k: string)
    requires k != "" && r != "" && r[0] != k[0]
    ensures After("\"" + r, Quoted(k)) == After(r, Quoted(k))
  {
    var s := "\"" + r;
    assert s[1..] == r && s[1] == r[0];
    assert Quoted(k)[1] == k[0];
  }

  // ---------- numbers ----------

  predicate IsDigit(c: char) {
    '0' <= c <= '9'
  }

  predicate IsSpace(c: char) {
    c == ' ' || c == '\t' || c == '\n' || c == '\r' || c == '\U{0B}' || c == '\U{0C}'
  }

  function Digit(d: nat): (c: char)
    requires d < 10
    ensures IsDigit(c) && DigitValue(c) == d
  {
    (d + '0' as int) as char
  }

  function DigitValue(c: char): nat
    requires IsDigit(c)
  {
    c as int - '0' as int
  }

  function Digits(n: nat): (s: string)
    ensures s != "" && forall c :: c in s ==> IsDigit(c)
  {
    if n < 10 then [Digit(n)] else Digits(n / 10) + [Digit(n % 10)]
  }

  /** What a stream prints for an `int`. */
  function Decimal(n: int): (s: string)
    ensures s != "" && forall c :: c in s ==> IsDigit(c) || c == '-'
  {
    if n < 0 then "-" + Digits(-n) else Digits(n)
  }

  /** Reads digits for as long as there are any. */
  function Accumulate(s: string, n: nat): nat {
    if s != "" && IsDigit(s[0]) then Accumulate(s[1..], 10 * n + DigitValue(s[0])) else n
  }

  function SkipSpaces(s: string): string {
    if s != "" && IsSpace(s[0]) then SkipSpaces(s[1..]) else s
  }

  /** `std::stoi`; it throws when there is no number, or one that no `int` holds. */
  function Stoi(s: string): Option<int> {
    var t := SkipSpaces(s);
    var u := if t != "" && (t[0] == '-' || t[0] == '+') then t[1..] else t;
    if u == "" || !IsDigit(u[0]) then None
    else
      var n: int := Accumulate(u, 0) * (if t[0] == '-' then -1 else 1);
      if INT_MIN <= n <= INT_MAX then Some(n) else None
  }

  lemma {:induction false} ReadDigits(n: nat, rest: string)
    ensures Accumulate(Digits(n) + rest, 0) == Accumulate(rest, n)
  {
    if n < 10 {
      assert ([Digit(n)] + rest)[1..] == rest;
    } else {
      var last := [Digit(n % 10)];
      ReadDigits(n / 10, last + rest);
      assert Digits(n) + rest == Digits(n / 10) + (last + rest);
      assert (last + rest)[1..] == rest;
    }
  }

  predicate IsInt(n: int) {
    INT_MIN <= n <= INT_MAX
  }

  /** What is printed for an `int` is read back, whatever comes after it except more digits. */
  lemma StoiDecimal(n: int, spaces: string, rest: string)
    requires IsInt(n) && (forall c :: c in spaces ==> IsSpace(c)) && (rest != "" ==> !IsDigit(rest[0]))
    ensures Stoi(spaces + Decimal(n) + rest) == Some(n)
  {
    assert spaces + (Decimal(n) + rest) == spaces + Decimal(n) + rest;
    DecimalFacts(n, rest);
    SkipAll(spaces, Decimal(n) + rest);
  }

  predicate AllDigits(d: string) {
    forall i :: 0 <= i < |d| ==> '0' <= d[i] <= '9'
  }

  /** The number that a string of digits stands for. */
  function NumberOf(d: string): (n: int)
    requires AllDigits(d)
    ensures n >= 0
  {
    if d == "" then 0 else 10 * NumberOf(d[..|d| - 1]) + (d[|d| - 1] as int - '0' as int)
  }

  lemma {:induction false} AccumulateIs(d: string, rest: string)
    requires AllDigits(d)
    ensures Accumulate(d + rest, 0) == Accumulate(rest, NumberOf(d))
    decreases |d|
  {
    if d == "" {
      assert d + rest == rest;
    } else {
      var front, last := d[..|d| - 1], [d[|d| - 1]];
      assert d == front + last;
      AccumulateIs(front, last + rest);
      assert d + rest == front + (last + rest);
      assert (last + rest)[1..] == rest;
    }
  }

  /** Blanks, then at most one sign, then digits: they are the number, if 32 bits hold it. */
  lemma StoiReads(blanks: string, sign: string, d: string, rest: string)
    requires forall c :: c in blanks ==> c in {' ', '\t', '\n', '\r', '\U{0B}', '\U{0C}'}
    requires sign in {"", "-", "+"} && d != "" && AllDigits(d)
    requires rest != "" ==> !('0' <= rest[0] <= '9')
    ensures var n: int := if sign == "-" then -NumberOf(d) else NumberOf(d);
      Stoi(blanks + (sign + (d + rest))) == if -2_147_483_648 <= n <= 2_147_483_647 then Some(n) else None
  {
    var t := sign + (d + rest);
    assert (d + rest)[0] == d[0];
    assert sign == "" ==> t == d + rest;
    assert sign != "" ==> t[0] == sign[0] && t[1..] == d + rest;
    SkipAll(blanks, t);
    AccumulateIs(d, rest);
  }

  /** Without a digit there, there is no number. */
  lemma StoiRefuses(blanks: string, sign: string, rest: string)
    requires forall c :: c in blanks ==> c in {' ', '\t', '\n', '\r', '\U{0B}', '\U{0C}'}
    requires sign in {"", "-", "+"} && (rest != "" ==> !('0' <= rest[0] <= '9'))
    requires sign == "" && rest != "" ==>
      rest[0] !in {' ', '\t', '\n', '\r', '\U{0B}', '\U{0C}', '-', '+'}
    ensures Stoi(blanks + (sign + rest)) == None
  {
    var t := sign + rest;
    assert sign == "" ==> t == rest;
    assert sign != "" ==> t[0] == sign[0] && t[1..] == rest;
    SkipAll(blanks, t);
  }

  lemma StoiPlain(n: int)
    requires IsInt(n)
    ensures Stoi(Decimal(n)) == Some(n)
  {
    DecimalFacts(n, "");
    assert Decimal(n) + "" == Decimal(n);
  }

  lemma DecimalFacts(n: int, rest: string)
    requires IsInt(n) && (rest != "" ==> !IsDigit(rest[0]))
    ensures var t := Decimal(n) + rest; t != "" && !IsSpace(t[0]) && Stoi(t) == Some(n)
  {
    var t, size := Decimal(n) + rest, if n < 0 then -n else n;
    var digits := Digits(size);
    assert digits[0] in digits;
    ReadDigits(size, rest);
    assert (if n < 0 then t[1..] else t) == digits + rest;
    assert t[0] == if n < 0 then '-' else digits[0];
  }

  lemma {:induction false} SkipAll(spaces: string, t: string)
    requires (forall c :: c in spaces ==> IsSpace(c)) && (t != "" ==> !IsSpace(t[0]))
    ensures SkipSpaces(spaces + t) == t
  {
    if spaces == "" {
      assert spaces + t == t;
    } else {
      assert spaces[0] in spaces;
      assert (spaces + t)[1..] == spaces[1..] + t;
      SkipAll(spaces[1..], t);
    }
  }
}
