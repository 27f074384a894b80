/**
 Where the client finds the arrays of a message.  It looks for the name of an array with its opening bracket, and then
 for the closing bracket with the name of the next array.  Neither can be met inside a record or a name, as long as no
 name holds a quote: wherever a mark holds a quote, it goes on with what only stands between the fields of a message.
 */
module Marks {
  import opened Extract
  import opened Fields
  import opened Records
  import opened Text
  import opened Wrappers

  datatype Mark = Opening(name: string) | Closing(name: string)

  function MarkText(m: Mark): (p: string)
    ensures p != "" && p[0] == if m.Opening? then '"' else ']'
  {
    if m.Opening? then Quoted(m.name) + ":[" else "]," + Quoted(m.name) + ":"
  }

  /** The search for `p` passes over `x`, whatever follows it. */
  ghost predicate Passes(x: string, p: string) {
    forall r :: After(x + r, p) == After(r, p)
  }

  lemma PassBoth(x: string, y: string, p: string)
    requires Passes(x, p) && Passes(y, p)
    ensures Passes(x + y, p)
  {
    forall r ensures After(x + y + r, p) == After(r, p) {
      assert x + y + r == x + (y + r);
    }
  }

  lemma PassPlain(x: string, p: string)
    requires p != "" && p[0] !in x
    ensures Passes(x, p)
  {
    forall r ensures After(x + r, p) == After(r, p) { SkipPlain(x, r, p); }
  }

  // ---------- words ----------

  /** A quoted word is passed over when it is not the name, or when no bracket comes behind it. */
  lemma SkipOpening(v: string, t: string, k: string)
    requires '"' !in v && IsName(k) && t != "" && t[0] != k[0] && (v == k ==> !(":[" <= t))
    ensures After(Quoted(v) + t, MarkText(Opening(k))) == After(t, MarkText(Opening(k)))
  {
    var s, p := Quoted(v) + t, MarkText(Opening(k));
    NotOpening(v, t, k);
    assert s[1..] == v + ("\"" + t);
    SkipPlain(v, "\"" + t, p);
    assert ("\"" + t)[1..] == t && ("\"" + t)[1] == t[0] && p[1] == k[0];
  }

  lemma NotOpening(v: string, t: string, k: string)
    requires '"' !in v && IsName(k) && (v == k ==> !(":[" <= t))
    ensures !(MarkText(Opening(k)) <= Quoted(v) + t)
  {
    var s, p := Quoted(v) + t, MarkText(Opening(k));
    if p <= s {
      NoQuote(k);
      assert p[1..] <= s[1..];
      assert p[1..] == k + "\"" + ":[" && s[1..] == v + "\"" + t;
      SameWord(k, v, ":[", t);
      assert false;
    }
  }

  lemma NoQuote(k: string)
    requires IsName(k)
    ensures '"' !in k
  {
  }

  /** A closing bracket inside a word is not the one before a name: what ends the word does not begin a name. */
  lemma {:induction false} SkipClosing(v: string, c: char, r: string, k: string)
    requires '"' !in v && c != ']' && k != "" && c != k[0]
    ensures After(v + ("\"" + ([c] + r)), MarkText(Closing(k))) == After(r, MarkText(Closing(k)))
  {
    var s, p := v + ("\"" + ([c] + r)), MarkText(Closing(k));
    if v == "" {
      assert s[1..][1..] == r && s[1..][0] == c;
    } else {
      assert s[1..] == v[1..] + ("\"" + ([c] + r));
      NoMark(v, c, r, k);
      SkipClosing(v[1..], c, r, k);
    }
  }

  lemma NoMark(v: string, c: char, r: string, k: string)
    requires v != "" && '"' !in v && k != "" && c != k[0]
    ensures !(MarkText(Closing(k)) <= v + ("\"" + ([c] + r)))
  {
    var s, p := v + ("\"" + ([c] + r)), MarkText(Closing(k));
    assert p[1] == ',' && p[2] == '"' && p[3] == k[0];
    assert |v| == 1 ==> s[1] == '"';
    assert |v| == 2 ==> s[3] == c;
    assert |v| > 2 ==> s[2] == v[2] && v[2] in v;
  }

  /** A word is passed over together with what stands behind it. */
  lemma PassWord(v: string, c: char, m: Mark)
    requires '"' !in v && IsName(m.name) && (c == ',' || c == '}' || (m.Opening? && c == ']'))
    ensures Passes(Quoted(v) + [c], MarkText(m))
  {
    var p := MarkText(m);
    forall r ensures After(Quoted(v) + [c] + r, p) == After(r, p) {
      var t := [c] + r;
      assert Quoted(v) + [c] + r == Quoted(v) + t;
      if m.Opening? {
        SkipOpening(v, t, m.name);
        SkipPlain([c], r, p);
      } else {
        assert Quoted(v) + t == "\"" + (v + ("\"" + t));
        SkipPlain("\"", v + ("\"" + t), p);
        SkipClosing(v, c, r, m.name);
      }
    }
  }

  lemma PassKey(key: string, m: Mark)
    requires '"' !in key && ']' !in key && IsName(m.name) && key != m.name
    ensures Passes(Quoted(key) + ":", MarkText(m))
  {
    var p := MarkText(m);
    if m.Closing? {
      PassPlain(Quoted(key) + ":", p);
    } else {
      forall r ensures After(Quoted(key) + ":" + r, p) == After(r, p) {
        assert Quoted(key) + ":" + r == Quoted(key) + (":" + r);
        SkipOpening(key, ":" + r, m.name);
        SkipPlain(":", r, p);
      }
    }
  }

  // ---------- records ----------

  /** A field that holds no mark. */
  predicate Harmless(f: Field, m: Mark) {
    && Tidy(f) && ']' !in f.key && f.key != m.name && (f.Bare? ==> ']' !in f.raw)
  }

  lemma PassField(f: Field, c: char, m: Mark)
    requires Harmless(f, m) && IsName(m.name) && (c == ',' || c == '}')
    ensures Passes(FieldText(f, WIRE) + [c], MarkText(m))
  {
    PassKey(f.key, m);
    if f.Word? {
      PassWord(f.value, c, m);
    } else {
      PassPlain(f.raw + [c], MarkText(m));
    }
    PassBoth(Quoted(f.key) + ":", Printed(f) + [c], MarkText(m));
    assert FieldText(f, WIRE) + [c] == Quoted(f.key) + ":" + (Printed(f) + [c]);
  }

  lemma {:induction false} PassFieldsOf(fs: seq<Field>, c: char, m: Mark)
    requires fs != [] && (forall f :: f in fs ==> Harmless(f, m)) && IsName(m.name) && (c == ',' || c == '}')
    ensures Passes(FieldsText(fs, WIRE) + [c], MarkText(m))
  {
    assert fs[0] in fs && forall f :: f in fs[1..] ==> f in fs;
    if |fs| == 1 {
      PassField(fs[0], c, m);
    } else {
      PassField(fs[0], ',', m);
      PassFieldsOf(fs[1..], c, m);
      PassBoth(FieldText(fs[0], WIRE) + ",", FieldsText(fs[1..], WIRE) + [c], MarkText(m));
      Associate(FieldText(fs[0], WIRE) + ",", FieldsText(fs[1..], WIRE), [c]);
    }
  }

  lemma PassObject(fs: seq<Field>, m: Mark)
    requires fs != [] && (forall f :: f in fs ==> Harmless(f, m)) && IsName(m.name)
    ensures Passes(ObjectText(fs), MarkText(m))
  {
    PassPlain("{", MarkText(m));
    PassFieldsOf(fs, '}', m);
    PassBoth("{", FieldsText(fs, WIRE) + "}", MarkText(m));
    Associate("{", FieldsText(fs, WIRE), "}");
  }

  // ---------- arrays ----------

  lemma {:induction false} PassJoined(ts: seq<string>, p: string)
    requires (forall t :: t in ts ==> Passes(t, p)) && Passes(",", p)
    ensures Passes(Join(ts), p)
  {
    if ts == [] {
      PassEmpty(p);
    } else if |ts| == 1 {
      assert ts[0] in ts;
    } else {
      assert ts[0] in ts && forall t :: t in ts[1..] ==> t in ts;
      PassJoined(ts[1..], p);
      PassBoth(ts[0], ",", p);
      PassBoth(ts[0] + ",", Join(ts[1..]), p);
    }
  }

  lemma PassEmpty(p: string)
    ensures Passes("", p)
  {
    forall r ensures After("" + r, p) == After(r, p) { assert "" + r == r; }
  }

  /** The same where the elements are only passed over together with what stands behind them. */
  lemma {:induction false} PassListed(ts: seq<string>, p: string)
    requires (forall t :: t in ts ==> Passes(t + ",", p) && Passes(t + "]", p)) && Passes("]", p)
    ensures Passes(Join(ts) + "]", p)
  {
    if ts == [] {
      assert "" + "]" == "]";
    } else if |ts| == 1 {
      assert ts[0] in ts;
    } else {
      assert ts[0] in ts && forall t :: t in ts[1..] ==> t in ts;
      PassListed(ts[1..], p);
      PassBoth(ts[0] + ",", Join(ts[1..]) + "]", p);
      Associate(ts[0] + ",", Join(ts[1..]), "]");
    }
  }

  // ---------- sections ----------

  lemma Reached(x: string, p: string, r: string)
    requires Passes(x, p)
    ensures Find(x + (p + r), p) == Some(|x|)
  {
    var s, t := x + (p + r), p + r;
    assert After(s, p) == After(t, p) == Some(t);
    AfterFind(s, p);
    var i := Find(s, p).value;
    assert s[i..] == t && |s| - i == |t|;
  }

  /** A section is what stands between its marks if neither mark is met earlier. */
  lemma SectionIs(s: string, before: string, open: string, body: string, close: string, r: string)
    requires s == before + (open + (body + (close + r)))
    requires Passes(before, open) && Passes(open + body, close)
    ensures Section(s, open, close) == Some(body)
  {
    var t := open + (body + (close + r));
    Reached(before, open, body + (close + r));
    assert s[|before|..] == t;
    Associate(open, body, close + r);
    Reached(open + body, close, r);
    SubSlice(before, open, body, close + r, s);
  }

  lemma SubSlice(before: string, open: string, body: string, r: string, s: string)
    requires s == before + (open + (body + r))
    ensures |before| + |open| + |body| <= |s|
    ensures s[|before| + |open|..|before| + |open| + |body|] == body
  {
  }
}
