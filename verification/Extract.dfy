/**
 How the client takes values out of a message: it looks for the first occurrence of a name, then for the next colon,
 then for quotes, a comma or a brace.  Arrays are cut at brackets and records at braces.
 */
module Extract {
  import opened Fields
  import opened Text
  import opened Wrappers

  const WIRE := Layout(":", ",")
  const STOPS := {',', '}'}

  /** Fields after an opening brace, with whatever comes after them. */
  function Opened(fs: seq<Field>, end: string): string {
    "{" + FieldsText(fs, WIRE) + end
  }

  function ObjectText(fs: seq<Field>): string {
    Opened(fs, "}")
  }

  /** What may come after the fields: the brace that closes the record, or a comma and more. */
  predicate Closes(end: string) {
    end != "" && end[0] in STOPS
  }

  /** What follows the first colon after the first occurrence of the quoted name. */
  function AfterColon(s: string, key: string): Option<string> {
    var pos :- Find(s, Quoted(key));
    var colon :- FindFrom(s, ":", pos);
    Some(s[colon + 1..])
  }

  /** What stands between the first two quotes. */
  function FirstQuoted(t: string): string {
    match Find(t, "\"")
    case None => ""
    case Some(q1) =>
      match FindFrom(t, "\"", q1 + 1)
      case None => ""
      case Some(q2) => t[q1 + 1..q2]
  }

  /** `extract_string` */
  function ExtractString(s: string, key: string): string {
    match AfterColon(s, key)
    case None => ""
    case Some(t) => FirstQuoted(t)
  }

  /** What is read as the value of a name that is no string. */
  function RawValue(s: string, key: string): Option<string> {
    var t :- AfterColon(s, key);
    var n :- FirstOf(t, STOPS);
    Some(t[..n])
  }

  /** `extract_int`: 0 when there is no value, nothing when `stoi` throws. */
  function ExtractInt(s: string, key: string): Option<int> {
    match RawValue(s, key)
    case None => Some(0)
    case Some(raw) => Stoi(raw)
  }

  /** `extract_bool` */
  predicate ExtractBool(s: string, key: string) {
    match RawValue(s, key)
    case None => false
    case Some(raw) => Find(raw, "true").Some?
  }

  /** What is not there is read as the empty string, as 0, or as false. */
  lemma Missing(s: string, key: string)
    requires forall i :: !OccursAt(s, Quoted(key), i)
    ensures ExtractString(s, key) == "" && ExtractInt(s, key) == Some(0) && !ExtractBool(s, key)
  {
    FindMeaning(s, Quoted(key));
  }

  lemma AfterColonIs(s: string, key: string, t: string, x: string, r: string)
    requires After(s, Quoted(key)) == Some(t) && t == x + (":" + r) && ':' !in x
    ensures AfterColon(s, key) == Some(r)
  {
    AfterFind(s, Quoted(key));
    FindAfter(x, ":", r);
    assert x + ":" + r == t;
    var pos := Find(s, Quoted(key)).value;
    assert t[|x| + 1..] == r;
    assert s[pos + |x| + 1..] == s[pos..][|x| + 1..];
  }

  lemma RawIs(s: string, key: string, raw: string, r: string)
    requires AfterColon(s, key) == Some(raw + r)
    requires r != "" && r[0] in STOPS && forall c :: c in raw ==> c !in STOPS
    ensures RawValue(s, key) == Some(raw)
  {
    FirstOfAfter(raw, r, STOPS);
    assert (raw + r)[..|raw|] == raw;
  }

  lemma FirstQuotedIs(t: string, x: string, v: string, r: string)
    requires t == x + Quoted(v) + r && '"' !in x && '"' !in v
    ensures FirstQuoted(t) == v
  {
    var y := v + "\"" + r;
    Requote(x, v, r);
    FindAfter(x, "\"", y);
    assert t[|x| + 1..] == y;
    FindAfter(v, "\"", r);
    assert FindFrom(t, "\"", |x| + 1) == Some(|x| + 1 + |v|);
    Middle(t, x + "\"", v, "\"" + r);
  }

  lemma Requote(x: string, v: string, r: string)
    ensures x + Quoted(v) + r == x + "\"" + (v + "\"" + r)
    ensures x + Quoted(v) + r == (x + "\"") + v + ("\"" + r)
  {
  }

  // ---------- one record ----------

  /** A record as the server prints it: no character where it could be mistaken for another. */
  predicate Readable(f: Field) {
    && Tidy(f) && ':' !in f.key && (f.Bare? ==> forall c :: c in f.raw ==> c !in STOPS)
  }

  predicate AllReadable(fs: seq<Field>) {
    forall f :: f in fs ==> Readable(f)
  }

  predicate KeyWord(k: string) {
    k != "" && '"' !in k && ':' !in k && ',' !in k
  }

  lemma OpenedFrom(fs: seq<Field>, end: string, k: string, r: string)
    requires KeyWord(k) && After(FieldsText(fs, WIRE) + end, Quoted(k)) == Some(r)
    ensures After(Opened(fs, end), Quoted(k)) == Some(r)
  {
    SkipPlain("{", FieldsText(fs, WIRE) + end, Quoted(k));
    Associate("{", FieldsText(fs, WIRE), end);
    assert k[0] in k;
  }

  /** What stands after a field of a record. */
  function Tail(fs: seq<Field>, n: nat, end: string): (r: string)
    requires n < |fs| && Closes(end)
    ensures Closes(r)
  {
    Behind(fs, n, WIRE, end)
  }

  predicate FirstNaming(fs: seq<Field>, n: nat)
    requires n < |fs|
  {
    forall m :: 0 <= m < n ==> !Names(fs[m], fs[n].key)
  }

  lemma FieldAt(fs: seq<Field>, n: nat, end: string)
    requires n < |fs| && AllReadable(fs) && KeyWord(fs[n].key) && FirstNaming(fs, n) && Closes(end)
    ensures AfterColon(Opened(fs, end), fs[n].key) == Some(Printed(fs[n]) + Tail(fs, n, end))
  {
    var k, w := fs[n].key, Printed(fs[n]) + Tail(fs, n, end);
    assert k[0] in k;
    forall f | f in fs ensures Tidy(f) { assert Readable(f); }
    Locate(fs, n, WIRE, end, k);
    var t := FieldsText(fs[n..], WIRE) + end;
    OpenedFrom(fs, end, k, t);
    FieldsFrom(fs, n, WIRE, end, w);
    AfterColonIs(Opened(fs, end), k, t, Quoted(k), w);
  }

  /** The value of a field is read back if no earlier field holds the field's name as its value. */
  lemma FieldReads(fs: seq<Field>, n: nat, end: string)
    requires n < |fs| && AllReadable(fs) && KeyWord(fs[n].key) && FirstNaming(fs, n) && Closes(end)
    ensures fs[n].Word? ==> ExtractString(Opened(fs, end), fs[n].key) == fs[n].value
    ensures fs[n].Bare? ==> RawValue(Opened(fs, end), fs[n].key) == Some(fs[n].raw)
  {
    FieldAt(fs, n, end);
    assert Readable(fs[n]);
    ValueRead(Opened(fs, end), fs[n].key, fs[n], Tail(fs, n, end));
  }

  lemma ValueRead(s: string, k: string, f: Field, r: string)
    requires AfterColon(s, k) == Some(Printed(f) + r) && Readable(f) && Closes(r)
    ensures f.Word? ==> ExtractString(s, k) == f.value
    ensures f.Bare? ==> RawValue(s, k) == Some(f.raw)
  {
    if f.Word? {
      StartsQuoted(f.value, r);
    } else {
      RawIs(s, k, f.raw, r);
    }
  }

  lemma StartsQuoted(v: string, r: string)
    requires '"' !in v
    ensures FirstQuoted(Quoted(v) + r) == v
  {
    assert Quoted(v) + r == "" + Quoted(v) + r;
    FirstQuotedIs(Quoted(v) + r, "", v, r);
  }

  /** Field `m` holds a name that is not its own, no earlier one does, and a field comes after it. */
  predicate Diverts(fs: seq<Field>, m: nat, k: string) {
    && m + 1 < |fs| && fs[m].Word? && fs[m].value == k && fs[m].key != k && KeyWord(k)
    && forall i :: 0 <= i < m ==> !Names(fs[i], k)
  }

  /** Where a field holds the name of a later one, that name yields what belongs to the field right after the holder. */
  lemma FieldMisread(fs: seq<Field>, m: nat, k: string, end: string)
    requires AllReadable(fs) && Diverts(fs, m, k) && Closes(end)
    ensures fs[m + 1].Word? ==> ExtractString(Opened(fs, end), k) == fs[m + 1].value
    ensures fs[m + 1].Word? ==> ExtractInt(Opened(fs, end), k).None?
    ensures fs[m + 1].Bare? ==> RawValue(Opened(fs, end), k) == Some(fs[m + 1].raw)
    ensures fs[m + 1].Bare? && m + 2 < |fs| ==> ExtractString(Opened(fs, end), k) == fs[m + 2].key
  {
    var s, f, r := Opened(fs, end), fs[m + 1], Tail(fs, m + 1, end);
    MisreadAt(fs, m, k, end);
    assert Readable(f);
    ValueRead(s, k, f, r);
    if f.Word? {
      WordIsNoNumber(s, k, f.value, r);
    } else if m + 2 < |fs| {
      assert Readable(fs[m + 2]);
      NextKey(fs, m + 1, end, f.raw + r);
      FirstQuotedIs(f.raw + r, f.raw + ",", fs[m + 2].key, (f.raw + r)[|f.raw| + 3 + |fs[m + 2].key|..]);
    }
  }

  lemma WordIsNoNumber(s: string, k: string, v: string, r: string)
    requires AfterColon(s, k) == Some(Quoted(v) + r) && Closes(r)
    ensures ExtractInt(s, k).None?
  {
    var t := Quoted(v) + r;
    assert t[|Quoted(v)|] == r[0];
    StopFound(t, |Quoted(v)|);
    var raw := t[..FirstOf(t, STOPS).value];
    assert t[0] == '"' && raw[0] == '"';
    assert SkipSpaces(raw) == raw;
  }

  lemma {:induction false} StopFound(t: string, i: nat)
    requires i < |t| && t[i] in STOPS
    ensures FirstOf(t, STOPS).Some? && (t[0] !in STOPS ==> FirstOf(t, STOPS).value > 0)
  {
    if t[0] !in STOPS {
      StopFound(t[1..], i - 1);
    }
  }

  lemma MisreadAt(fs: seq<Field>, m: nat, k: string, end: string)
    requires AllReadable(fs) && Diverts(fs, m, k) && Closes(end)
    ensures AfterColon(Opened(fs, end), k) == Some(Printed(fs[m + 1]) + Tail(fs, m + 1, end))
  {
    var text, w := FieldsText(fs[m + 1..], WIRE), Printed(fs[m + 1]) + Tail(fs, m + 1, end);
    assert Readable(fs[m + 1]);
    FoundFirst(fs, m, k, end, text);
    FieldsFrom(fs, m + 1, WIRE, end, w);
    PastName(Opened(fs, end), k, text, fs[m + 1].key, WIRE, end, w);
  }

  lemma FoundFirst(fs: seq<Field>, m: nat, k: string, end: string, text: string)
    requires AllReadable(fs) && Diverts(fs, m, k) && text == FieldsText(fs[m + 1..], WIRE)
    ensures After(Opened(fs, end), Quoted(k)) == Some(Quoted(k) + ("," + text) + end)
  {
    var rest := fs[m..];
    assert k[0] in k && rest[0] == fs[m] && rest[1..] == fs[m + 1..];
    forall f | f in fs ensures Tidy(f) { assert Readable(f); }
    PassFields(fs, m, WIRE, end, k);
    LocateValue(rest, WIRE, end, k);
    OpenedFrom(fs, end, k, Quoted(k) + ("," + text) + end);
  }

  /** From a value that is taken for a name, the search goes on to the colon of the next field. */
  lemma PastName(s: string, k: string, text: string, name: string, l: Layout, close: string, w: string)
    requires ':' !in k && ':' !in name && ':' !in l.comma && text + close == Quoted(name) + (":" + w)
    requires After(s, Quoted(k)) == Some(Quoted(k) + (l.comma + text) + close)
    ensures AfterColon(s, k) == Some(w)
  {
    Rejoin(Quoted(k), text, Quoted(name), ":" + w, l.comma, close);
    AfterColonIs(s, k, Quoted(k) + (l.comma + text) + close, Quoted(k) + l.comma + Quoted(name), w);
  }

  lemma Rejoin(k: string, text: string, name: string, r: string, comma: string, close: string)
    requires text + close == name + r
    ensures k + (comma + text) + close == (k + comma + name) + r
  {
    assert k + (comma + text) + close == k + comma + (text + close);
  }

  /** After a bare value stands the name of the next field. */
  lemma NextKey(fs: seq<Field>, n: nat, end: string, w: string)
    requires n + 1 < |fs| && fs[n].Bare? && Closes(end) && w == fs[n].raw + Tail(fs, n, end)
    ensures var x, v := fs[n].raw + ",", fs[n + 1].key;
      |x| + 2 + |v| <= |w| && w == x + Quoted(v) + w[|x| + 2 + |v|..]
  {
    var rest := Printed(fs[n + 1]) + Tail(fs, n + 1, end);
    FieldsFrom(fs, n + 1, WIRE, end, rest);
    var more := FieldsText(fs[n + 1..], WIRE);
    Associate(",", more, end);
    assert w == fs[n].raw + "," + (Quoted(fs[n + 1].key) + (":" + rest));
    assert w == fs[n].raw + "," + Quoted(fs[n + 1].key) + (":" + rest);
  }

  // ---------- arrays of records ----------

  /** The stretches from an opening brace to the next closing one, from `pos` on. */
  function Objects(s: string, pos: nat): seq<string>
    requires pos <= |s|
    decreases |s| - pos
  {
    match FindFrom(s, "{", pos)
    case None => []
    case Some(b) =>
      match FindFrom(s, "}", b)
      case None => []
      case Some(e) => [s[b..e + 1]] + Objects(s, e + 1)
  }

  function Join(ts: seq<string>): string {
    Joined(ts, ",")
  }

  predicate IsObject(t: string) {
    |t| >= 2 && t[0] == '{' && t[|t| - 1] == '}' && '}' !in t[..|t| - 1]
  }

  lemma ObjectFirst(s: string, before: string, x: string, t: string, r: string, pos: nat, b: nat, after: nat)
    requires s == before + x + t + r && IsObject(t) && '{' !in x
    requires pos == |before| && b == |before + x| && after == |before + x + t|
    ensures after <= |s| && Objects(s, pos) == [t] + Objects(s, after)
  {
    ObjectBounds(s, before, x, t, r, pos, b, after - 1);
    Middle(s, before + x, t, r);
    ObjectsStep(s, pos, b, after - 1, t, after);
  }

  lemma ObjectBounds(s: string, before: string, x: string, t: string, r: string, pos: nat, b: nat, e: nat)
    requires s == before + x + t + r && IsObject(t) && '{' !in x
    requires pos == |before| && b == |before + x| && e == b + |t| - 1
    ensures FindFrom(s, "{", pos) == Some(b) && FindFrom(s, "}", b) == Some(e)
  {
    var body, tail := t[..|t| - 1], t[1..] + r;
    assert s == before + (x + "{" + tail);
    FindIn(s, before, x, "{", tail, pos, b);
    assert s == (before + x) + (body + "}" + r);
    FindIn(s, before + x, body, "}", r, b, e);
  }

  lemma ObjectsStep(s: string, pos: nat, b: nat, e: nat, first: string, after: nat)
    requires pos <= |s| && FindFrom(s, "{", pos) == Some(b) && FindFrom(s, "}", b) == Some(e)
    requires after == e + 1 && first == s[b..after]
    ensures Objects(s, pos) == [first] + Objects(s, after)
  {
  }

  lemma ObjectsEnd(s: string, pos: nat)
    requires pos <= |s|
    requires FindFrom(s, "{", pos).None? || FindFrom(s, "}", FindFrom(s, "{", pos).value).None?
    ensures Objects(s, pos) == []
  {
  }

  lemma NoObjects(s: string, before: string, x: string)
    requires s == before + x && '{' !in x
    ensures Objects(s, |before|) == []
  {
    assert s[|before|..] == x;
    FindMeaning(x, "{");
    assert forall i :: 0 <= i < |x| ==> x[i..][0] == x[i];
    assert forall i :: !OccursAt(x, "{", i);
  }

  /** The records of an array are told apart again. */
  lemma {:induction false} ObjectsJoin(s: string, before: string, x: string, ts: seq<string>)
    requires s == before + x + Join(ts) && (forall t :: t in ts ==> IsObject(t)) && '{' !in x
    ensures Objects(s, |before|) == ts
    decreases |ts|
  {
    if ts == [] {
      assert s == before + x;
      NoObjects(s, before, x);
    } else {
      assert ts[0] in ts && forall t :: t in ts[1..] ==> t in ts;
      var y, rest := if |ts| == 1 then "" else ",", Join(ts[1..]);
      Reassociate(before, x, ts[0], y, rest);
      assert Join(ts) == ts[0] + y + rest;
      ObjectFirst(s, before, x, ts[0], y + rest, |before|, |before + x|, |before + x + ts[0]|);
      ObjectsJoin(s, before + x + ts[0], y, ts[1..]);
    }
  }

  /** A record that ends at its first closing brace, with nothing in it that is not in `s`. */
  predicate CutFrom(t: string, s: string) {
    IsObject(t) && forall c :: c in t ==> c in s
  }

  /** Nothing but such records is cut out. */
  lemma {:induction false} ObjectsAre(s: string, pos: nat, t: string)
    requires pos <= |s| && t in Objects(s, pos)
    ensures CutFrom(t, s)
    decreases |s| - pos
  {
    var first, after := FirstObject(s, pos, t);
    if t != first {
      ObjectsAre(s, after, t);
    }
  }

  lemma FirstObject(s: string, pos: nat, t: string) returns (first: string, after: nat)
    requires pos <= |s| && t in Objects(s, pos)
    ensures pos < after <= |s| && CutFrom(first, s) && (t == first || t in Objects(s, after))
  {
    if FindFrom(s, "{", pos).None? || FindFrom(s, "}", FindFrom(s, "{", pos).value).None? {
      ObjectsEnd(s, pos);
    }
    var b := FindFrom(s, "{", pos).value;
    var e := FindFrom(s, "}", b).value;
    first, after := s[b..e + 1], e + 1;
    ObjectsStep(s, pos, b, e, first, after);
    ObjectCut(s, b, e, first, pos);
  }

  lemma ObjectCut(s: string, b: nat, e: nat, first: string, pos: nat)
    requires FindFrom(s, "{", pos) == Some(b) && FindFrom(s, "}", b) == Some(e) && first == s[b..e + 1]
    ensures CutFrom(first, s)
  {
    FoundChar(s, '{', pos, b);
    FoundChar(s, '}', b, e);
    assert first[..|first| - 1] == s[b..e];
    assert forall k :: 0 <= k < |first| ==> first[k] == s[b + k];
  }

  /** A character that is found stands there, and not before. */
  lemma FoundChar(s: string, c: char, from: nat, i: nat)
    requires FindFrom(s, [c], from) == Some(i)
    ensures from <= i < |s| && s[i] == c && c !in s[from..i]
  {
    var t := s[from..];
    FindMeaning(t, [c]);
    assert [c] <= t[i - from..];
    forall k | 0 <= k < i - from ensures s[from..i][k] != c {
      assert !OccursAt(t, [c], k);
      assert t[k..][0] == s[from..i][k];
    }
  }

  lemma Reassociate(before: string, x: string, t: string, y: string, rest: string)
    ensures before + x + (t + y + rest) == before + x + t + (y + rest)
    ensures before + x + (t + y + rest) == (before + x + t) + y + rest
  {
  }

  /** What stands between `open` and the next `close`. */
  function Section(s: string, open: string, close: string): Option<string> {
    var b :- Find(s, open);
    var e :- FindFrom(s, close, b);
    if b + |open| <= e then Some(s[b + |open|..e]) else Some("")
  }

  /** A section that is closed by one character does not hold it. */
  lemma SectionWithout(s: string, open: string, c: char)
    requires Section(s, open, [c]).Some?
    ensures c !in Section(s, open, [c]).value
  {
    var b := Find(s, open).value;
    var e := FindFrom(s, [c], b).value;
    FoundChar(s, c, b, e);
  }
}
