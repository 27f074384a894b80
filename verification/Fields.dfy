/**
 Flat records of named fields as text, and where a search for a quoted name leads in them.  The search knows nothing of
 fields: it stops at the first quoted word that is the name, be it a name or a value.
 */
module Fields {
  import opened Text
  import opened Wrappers

  /** A field whose value stands in quotes, or one whose value stands bare. */
  datatype Field = Word(key: string, value: string) | Bare(key: string, raw: string)

  /** How a kind of record is laid out: what stands between a name and its value, and between two fields. */
  datatype Layout = Layout(colon: string, comma: string)

  /** The value of a field as it is printed. */
  function Printed(f: Field): string {
    if f.Word? then Quoted(f.value) else f.raw
  }

  function FieldText(f: Field, l: Layout): string {
    Quoted(f.key) + l.colon + Printed(f)
  }

  function FieldsText(fs: seq<Field>, l: Layout): string {
    if fs == [] then ""
    else if |fs| == 1 then FieldText(fs[0], l)
    else FieldText(fs[0], l) + l.comma + FieldsText(fs[1..], l)
  }

  /** What stands after the `n`-th field, the record being closed by `close`. */
  function Behind(fs: seq<Field>, n: nat, l: Layout, close: string): string
    requires n < |fs|
  {
    if n == |fs| - 1 then close else l.comma + FieldsText(fs[n + 1..], l) + close
  }

  lemma FieldsFrom(fs: seq<Field>, n: nat, l: Layout, close: string, w: string)
    requires n < |fs| && w == Printed(fs[n]) + Behind(fs, n, l, close)
    ensures FieldsText(fs[n..], l) + close == Quoted(fs[n].key) + (l.colon + w)
  {
    var g, f := fs[n..], fs[n];
    assert g[0] == f && g[1..] == fs[n + 1..];
    Regroup(Quoted(f.key), Printed(f), FieldsText(g[1..], l), l, close);
  }

  lemma Regroup(name: string, value: string, more: string, l: Layout, close: string)
    ensures name + l.colon + value + l.comma + more + close
         == name + (l.colon + (value + (l.comma + more + close)))
    ensures name + l.colon + value + close == name + (l.colon + (value + close))
  {
  }

  /** No quotes where none belong. */
  predicate Tidy(f: Field) {
    '"' !in f.key && (if f.Word? then '"' !in f.value else '"' !in f.raw)
  }

  predicate Names(f: Field, k: string) {
    f.key == k || (f.Word? && f.value == k)
  }

  /** A word that can stand for a name in this layout. */
  predicate Sought(k: string, l: Layout) {
    && k != "" && '"' !in k && '"' !in l.colon && '"' !in l.comma
    && l.colon != "" && l.comma != "" && l.colon[0] != k[0] && l.comma[0] != k[0]
  }

  /** A field that neither is named `k` nor holds the word `k` is passed over. */
  lemma SkipField(f: Field, r: string, k: string, l: Layout)
    requires Tidy(f) && Sought(k, l) && !Names(f, k) && r != "" && r[0] != k[0] && r[0] != '"'
    ensures After(FieldText(f, l) + r, Quoted(k)) == After(r, Quoted(k))
  {
    SkipName(f.key, Printed(f) + r, k, l);
    Associate(Quoted(f.key) + l.colon, Printed(f), r);
    if f.Word? {
      SkipWord(f.value, r, k);
      SkipQuote(r, k);
    } else {
      SkipPlain(f.raw, r, Quoted(k));
    }
  }

  lemma SkipName(x: string, r: string, k: string, l: Layout)
    requires '"' !in x && x != k && Sought(k, l)
    ensures After(Quoted(x) + l.colon + r, Quoted(k)) == After(r, Quoted(k))
  {
    assert Quoted(x) + l.colon + r == Quoted(x) + (l.colon + r);
    SkipWord(x, l.colon + r, k);
    SkipQuote(l.colon + r, k);
    SkipPlain(l.colon, r, Quoted(k));
  }

  predicate AllTidy(fs: seq<Field>) {
    forall f :: f in fs ==> Tidy(f)
  }

  lemma PassField(fs: seq<Field>, l: Layout, end: string, k: string)
    requires |fs| > 1 && Tidy(fs[0]) && Sought(k, l) && !Names(fs[0], k)
    ensures After(FieldsText(fs, l) + end, Quoted(k)) == After(FieldsText(fs[1..], l) + end, Quoted(k))
  {
    var rest := FieldsText(fs[1..], l) + end;
    assert FieldsText(fs, l) + end == FieldText(fs[0], l) + (l.comma + rest);
    SkipField(fs[0], l.comma + rest, k, l);
    SkipPlain(l.comma, rest, Quoted(k));
  }

  lemma {:induction false} PassFields(fs: seq<Field>, n: nat, l: Layout, end: string, k: string)
    requires n < |fs| && AllTidy(fs) && Sought(k, l) && forall m :: 0 <= m < n ==> !Names(fs[m], k)
    ensures After(FieldsText(fs, l) + end, Quoted(k)) == After(FieldsText(fs[n..], l) + end, Quoted(k))
    decreases n
  {
    if n == 0 {
      assert fs[0..] == fs;
    } else {
      PassField(fs, l, end, k);
      assert forall f :: f in fs[1..] ==> f in fs;
      PassFields(fs[1..], n - 1, l, end, k);
      assert fs[1..][n - 1..] == fs[n..];
    }
  }

  /** The search for a name ends at the first field of that name, if no earlier one holds it as its value. */
  lemma Locate(fs: seq<Field>, n: nat, l: Layout, end: string, k: string)
    requires n < |fs| && AllTidy(fs) && Sought(k, l)
    requires fs[n].key == k && forall m :: 0 <= m < n ==> !Names(fs[m], k)
    ensures After(FieldsText(fs, l) + end, Quoted(k)) == Some(FieldsText(fs[n..], l) + end)
  {
    PassFields(fs, n, l, end, k);
    assert fs[n..][0] == fs[n];
    assert Quoted(k) <= FieldsText(fs[n..], l) + end;
  }

  /** A value that is a name itself is where the search for that name ends, if it comes first. */
  lemma LocateValue(fs: seq<Field>, l: Layout, end: string, k: string)
    requires fs != [] && Tidy(fs[0]) && Sought(k, l) && fs[0].Word? && fs[0].value == k && fs[0].key != k
    ensures After(FieldsText(fs, l) + end, Quoted(k))
         == Some(Quoted(k) + (if |fs| == 1 then "" else l.comma + FieldsText(fs[1..], l)) + end)
  {
    var tail := Quoted(k) + (if |fs| == 1 then "" else l.comma + FieldsText(fs[1..], l)) + end;
    assert FieldsText(fs, l) + end == Quoted(fs[0].key) + l.colon + tail;
    SkipName(fs[0].key, tail, k, l);
    assert Quoted(k) <= tail;
  }

  /** A character that no field holds, and that does not separate fields, does not occur. */
  lemma {:induction false} FieldsWithout(fs: seq<Field>, l: Layout, c: char)
    requires forall f :: f in fs ==> c !in f.key && c !in (if f.Word? then f.value else f.raw)
    requires c != '"' && c !in l.colon && c !in l.comma
    ensures c !in FieldsText(fs, l)
  {
    if fs != [] {
      var f := fs[0];
      assert f in fs && c !in FieldText(f, l);
      assert forall g :: g in fs[1..] ==> g in fs;
      FieldsWithout(fs[1..], l, c);
    }
  }

  lemma {:induction false} FieldsWith(fs: seq<Field>, f: Field, l: Layout, c: char)
    requires f in fs && c in Printed(f)
    ensures c in FieldsText(fs, l)
  {
    if f == fs[0] {
      assert c in FieldText(f, l);
    } else {
      FieldsWith(fs[1..], f, l, c);
    }
  }
}
