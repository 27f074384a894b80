/**
 The records of a snapshot: an id, then numbers and flags, possibly one more word at the end.  What is read of such a
 record is its values, except that an id that is itself the name of a field hides that field.
 */
module Records {
  import opened Extract
  import opened Fields
  import opened Text
  import opened Wrappers

  function Flag(b: bool): string {
    if b then "true" else "false"
  }

  /** No quote, which would end the word. */
  predicate Clean(s: string) {
    '"' !in s
  }

  /** Small letters and underscores only. */
  predicate IsName(k: string) {
    k != "" && forall i :: 0 <= i < |k| ==> 'a' <= k[i] <= 'z' || k[i] == '_'
  }

  lemma NameClean(k: string)
    requires IsName(k)
    ensures KeyWord(k) && Clean(k) && '}' !in k && ']' !in k
  {
    assert forall c :: c in k ==> 'a' <= c <= 'z' || c == '_';
  }

  /** A field that can be mistaken for nothing else. */
  predicate Proper(f: Field) {
    && Readable(f) && IsName(f.key) && Clean(if f.Word? then f.value else f.raw) && (f.Bare? ==> ']' !in f.raw)
  }

  predicate DistinctKeys(fs: seq<Field>) {
    forall m, n :: 0 <= m < n < |fs| ==> fs[m].key != fs[n].key
  }

  predicate Regular(fs: seq<Field>) {
    && |fs| > 2 && DistinctKeys(fs) && (forall f :: f in fs ==> Proper(f))
    && fs[0].Word? && (forall n :: 1 <= n < |fs| - 1 ==> fs[n].Bare?)
  }

  lemma NumberProper(key: string, n: int)
    requires IsName(key)
    ensures Proper(Bare(key, Decimal(n)))
  {
  }

  lemma FlagProper(key: string, b: bool)
    requires IsName(key)
    ensures Proper(Bare(key, Flag(b)))
  {
  }

  lemma WordProper(key: string, value: string)
    requires IsName(key) && Clean(value)
    ensures Proper(Word(key, value))
  {
  }

  /** Records with these keys are told apart field by field. */
  lemma RegularFrom(fs: seq<Field>, keys: seq<string>)
    requires |fs| == |keys| > 2 && fs[0].Word?
    requires forall n :: 0 <= n < |fs| ==> fs[n].key == keys[n] && Proper(fs[n]) && (0 < n < |fs| - 1 ==> fs[n].Bare?)
    requires forall m, n :: 0 <= m < n < |keys| ==> keys[m] != keys[n]
    ensures Regular(fs)
  {
  }

  /** Where the id is also the name of a field, that field is read as the one right after the id. */
  lemma RecordReads(fs: seq<Field>, n: nat)
    requires Regular(fs) && n < |fs|
    ensures var confused := n > 0 && fs[0].value == fs[n].key;
      && (fs[n].Bare? ==> RawValue(ObjectText(fs), fs[n].key) == Some(if confused then fs[1].raw else fs[n].raw))
      && (fs[n].Word? ==> ExtractString(ObjectText(fs), fs[n].key) == if confused then fs[2].key else fs[n].value)
  {
    assert fs[n] in fs && Proper(fs[n]);
    assert AllReadable(fs) by { assert forall f :: f in fs ==> Proper(f); }
    if n > 0 && fs[0].value == fs[n].key {
      assert fs[0] in fs && Proper(fs[0]);
      FieldMisread(fs, 0, fs[n].key, "}");
    } else {
      FieldReads(fs, n, "}");
    }
  }

  lemma WordReads(fs: seq<Field>, t: string, n: nat, key: string, x: string, shown: string)
    requires Regular(fs) && t == ObjectText(fs) && n < |fs| && fs[n] == Word(key, x)
    requires shown == if n > 0 && fs[0].value == key then fs[2].key else x
    ensures ExtractString(t, key) == shown
  {
    RecordReads(fs, n);
  }

  lemma IntReads(fs: seq<Field>, t: string, n: nat, key: string, first: int, x: int, shown: int)
    requires Regular(fs) && t == ObjectText(fs) && 1 <= n < |fs| && IsInt(first) && IsInt(x)
    requires fs[1] == Bare(fs[1].key, Decimal(first)) && fs[n] == Bare(key, Decimal(x))
    requires shown == if fs[0].value == key then first else x
    ensures ExtractInt(t, key) == Some(shown)
  {
    RecordReads(fs, n);
    StoiPlain(first);
    StoiPlain(x);
  }

  lemma FlagReads(fs: seq<Field>, t: string, n: nat, key: string, first: int, b: bool, shown: bool)
    requires Regular(fs) && t == ObjectText(fs) && 1 < n < |fs|
    requires fs[1] == Bare(fs[1].key, Decimal(first)) && fs[n] == Bare(key, Flag(b))
    requires shown == (b && fs[0].value != key)
    ensures ExtractBool(t, key) == shown
  {
    RecordReads(fs, n);
    NotTrue(Decimal(first));
    NotTrue("false");
    assert "true" <= "true";
  }

  lemma {:induction false} NotTrue(s: string)
    requires 't' !in s
    ensures Find(s, "true").None?
  {
    if s != "" {
      assert s[0] in s;
      NotTrue(s[1..]);
    }
  }

  /** A record ends where it should unless a word in it holds a closing brace. */
  lemma RecordIsObject(fs: seq<Field>)
    requires Regular(fs)
    ensures IsObject(ObjectText(fs)) <==> forall f :: f in fs && f.Word? ==> '}' !in f.value
  {
    var t := ObjectText(fs);
    assert t[..|t| - 1] == "{" + FieldsText(fs, WIRE);
    forall f | f in fs ensures '}' !in f.key && (f.Bare? ==> '}' !in f.raw) {
      assert Proper(f);
      NameClean(f.key);
    }
    if f :| f in fs && f.Word? && '}' in f.value {
      FieldsWith(fs, f, WIRE, '}');
    } else {
      FieldsWithout(fs, WIRE, '}');
    }
  }
}
