/** The attribute dispatch of the header's `createElement` helper, in
    particular the rewrite of camel-case `data…` keys into `data-…`
    attribute names. */
module DataKeys {

  predicate IsUpper(c: char) {
    'A' <= c <= 'Z'
  }

  predicate IsLower(c: char) {
    'a' <= c <= 'z'
  }

  function Lower(c: char): (d: char)
    ensures !IsUpper(d)
    ensures IsUpper(c) ==> IsLower(d)
  {
    if IsUpper(c) then (c as int + 32) as char else c
  }

  function Upper(c: char): (d: char)
    ensures IsLower(c) ==> IsUpper(d) && Lower(d) == c
  {
    if IsLower(c) then (c as int - 32) as char else c
  }

  predicate NoUpper(s: string) {
    forall i :: 0 <= i < |s| ==> !IsUpper(s[i])
  }

  function CountUpper(s: string): nat {
    if s == "" then 0 else (if IsUpper(s[0]) then 1 else 0) + CountUpper(s[1..])
  }

  /** `s.replace(/([A-Z])/g, '-$1')`: a '-' before every upper-case letter. */
  function Hyphenate(s: string): (r: string)
    ensures |r| == |s| + CountUpper(s)
    ensures NoUpper(s) ==> r == s
  {
    if s == "" then ""
    else if IsUpper(s[0]) then "-" + [s[0]] + Hyphenate(s[1..])
    else [s[0]] + Hyphenate(s[1..])
  }

  /** `s.toLowerCase()`, on the ASCII letters. */
  function LowerAll(s: string): (r: string)
    ensures |r| == |s|
    ensures forall i :: 0 <= i < |s| ==> r[i] == Lower(s[i])
  {
    if s == "" then "" else [Lower(s[0])] + LowerAll(s[1..])
  }

  const DataPrefix: string := "data"

  /** The attribute name `createElement` sets for `key` when `key` starts with
      "data": each upper-case letter becomes '-' and its lower-case form. */
  function DataAttributeName(key: string): (r: string)
    requires DataPrefix <= key
    ensures NoUpper(r)
    ensures |r| == |key| + CountUpper(key)
  {
    LowerAll(Hyphenate(key))
  }

  /** What `createElement` does with one entry of its `attrs` object. */
  datatype AttrWrite =
    | SetClassName(value: string)
    | SetInnerHtml(value: string)
    | SetAttribute(name: string, value: string)

  function ApplyAttr(key: string, value: string): (w: AttrWrite)
    ensures w.value == value
    ensures w.SetAttribute? <==> key != "className" && key != "innerHTML"
    ensures w.SetAttribute? && !(DataPrefix <= key) ==> w.name == key
    ensures w.SetAttribute? && DataPrefix <= key ==> NoUpper(w.name) && DataPrefix <= w.name
    ensures w.SetAttribute? && DataPrefix <= key ==> w.name == Dasherize(key)
  {
    if key == "className" then SetClassName(value)
    else if key == "innerHTML" then SetInnerHtml(value)
    else if DataPrefix <= key then
      DataPrefixKept(key);
      RewriteIsDasherize(key);
      SetAttribute(DataAttributeName(key), value)
    else SetAttribute(key, value)
  }

  /** Reference definition: map each character on its own. */
  function Dasherize(s: string): string {
    if s == "" then ""
    else if IsUpper(s[0]) then "-" + [Lower(s[0])] + Dasherize(s[1..])
    else [s[0]] + Dasherize(s[1..])
  }

  /** The inverse mapping: the hyphen-to-camel-case step of the `dataset`
      naming rule, applied to the whole name (so, unlike `dataset`, the
      "data" prefix is kept: "data-foo-bar" becomes "dataFooBar"). */
  function Camelize(s: string): string {
    if s == "" then ""
    else if |s| >= 2 && s[0] == '-' && IsLower(s[1]) then [Upper(s[1])] + Camelize(s[2..])
    else [s[0]] + Camelize(s[1..])
  }

  lemma {:induction false} LowerAllAppend(a: string, b: string)
    ensures LowerAll(a + b) == LowerAll(a) + LowerAll(b)
  {
  }

  /** Hyphenating then lower-casing is the per-character reference mapping. */
  lemma {:induction false} RewriteIsDasherize(s: string)
    ensures LowerAll(Hyphenate(s)) == Dasherize(s)
  {
    if s != "" {
      RewriteIsDasherize(s[1..]);
      if IsUpper(s[0]) {
        assert Hyphenate(s) == ("-" + [s[0]]) + Hyphenate(s[1..]);
        LowerAllAppend("-" + [s[0]], Hyphenate(s[1..]));
      } else {
        assert Hyphenate(s) == [s[0]] + Hyphenate(s[1..]);
        LowerAllAppend([s[0]], Hyphenate(s[1..]));
      }
    }
  }

  lemma {:induction false} DasherizeAppend(a: string, b: string)
    ensures Dasherize(a + b) == Dasherize(a) + Dasherize(b)
  {
    if a == "" {
      assert a + b == b;
    } else {
      assert (a + b)[0] == a[0];
      assert (a + b)[1..] == a[1..] + b;
      DasherizeAppend(a[1..], b);
    }
  }

  lemma DataPrefixKept(key: string)
    requires DataPrefix <= key
    ensures DataPrefix <= DataAttributeName(key)
  {
    var rest := key[|DataPrefix|..];
    assert key == DataPrefix + rest;
    RewriteIsDasherize(key);
    DasherizeAppend(DataPrefix, rest);
    assert Dasherize(DataPrefix) == DataPrefix;
  }

  /** Rewriting an already rewritten name changes nothing. */
  lemma DataAttributeNameIdempotent(key: string)
    requires DataPrefix <= key
    ensures DataPrefix <= DataAttributeName(key)
    ensures DataAttributeName(DataAttributeName(key)) == DataAttributeName(key)
  {
    DataPrefixKept(key);
    var r := DataAttributeName(key);
    assert Hyphenate(r) == r;
    assert LowerAll(r) == r;
  }

  /** A key without '-' is recovered from its attribute name: the rewrite
      loses no information. */
  lemma {:induction false} CamelizeDasherize(s: string)
    requires forall i :: 0 <= i < |s| ==> s[i] != '-'
    ensures Camelize(Dasherize(s)) == s
  {
    if s != "" {
      CamelizeDasherize(s[1..]);
      if IsUpper(s[0]) {
        var d := Dasherize(s);
        assert d == ['-', Lower(s[0])] + Dasherize(s[1..]);
        assert d[2..] == Dasherize(s[1..]);
      } else {
        assert Dasherize(s) == [s[0]] + Dasherize(s[1..]);
        assert Dasherize(s)[1..] == Dasherize(s[1..]);
      }
    }
  }

  lemma DataKeyRoundTrip(key: string)
    requires DataPrefix <= key
    requires forall i :: 0 <= i < |key| ==> key[i] != '-'
    ensures Camelize(DataAttributeName(key)) == key
  {
    RewriteIsDasherize(key);
    CamelizeDasherize(key);
  }
}
