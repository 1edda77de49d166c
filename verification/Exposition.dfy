/** Rendering a labelled metric family as Prometheus text (metrics.go labeled,
    escapeLabel), with the reader it is meant for: label-value escaping and sample
    lines of the text exposition format, version 0.0.4. */
module Exposition {
  import opened AffinityKey
  import opened Wrappers

  // ---------- Label values ----------

  /** strings.ReplaceAll of a one-character string. */
  function ReplaceAll(s: string, c: char, into: string): string {
    if s == "" then "" else (if s[0] == c then into else [s[0]]) + ReplaceAll(s[1..], c, into)
  }

  /** escapeLabel: backslashes, then newlines, then quotes. */
  function EscapeLabel(v: string): string {
    ReplaceAll(ReplaceAll(ReplaceAll(v, '\\', "\\\\"), '\n', "\\n"), '\"', "\\\"")
  }

  function EscapeChar(c: char): string {
    if c == '\\' then "\\\\" else if c == '\n' then "\\n" else if c == '\"' then "\\\"" else [c]
  }

  function OnePass(v: string): string {
    if v == "" then "" else EscapeChar(v[0]) + OnePass(v[1..])
  }

  lemma {:induction false} ReplaceConcat(a: string, b: string, c: char, into: string)
    ensures ReplaceAll(a + b, c, into) == ReplaceAll(a, c, into) + ReplaceAll(b, c, into)
  {
    if a == "" {
      assert a + b == b;
    } else {
      assert (a + b)[1..] == a[1..] + b;
      ReplaceConcat(a[1..], b, c, into);
    }
  }

  lemma ReplaceOne(c: char, d: char, into: string)
    ensures ReplaceAll([c], d, into) == if c == d then into else [c]
  {
    assert [c][1..] == "";
  }

  lemma ReplaceTwo(c: char, d: char, e: char, into: string)
    requires c != e && d != e
    ensures ReplaceAll([c, d], e, into) == [c, d]
  {
    assert [c, d] == [c] + [d];
    ReplaceConcat([c], [d], e, into);
    ReplaceOne(c, e, into);
    ReplaceOne(d, e, into);
  }

  /** No replacement undoes or repeats another: the three passes are one. */
  lemma {:induction false} ThreePassesAreOne(v: string)
    ensures EscapeLabel(v) == OnePass(v)
  {
    if v != "" {
      var c := v[0];
      var one := ReplaceAll([c], '\\', "\\\\");
      var two := ReplaceAll(one, '\n', "\\n");
      assert v == [c] + v[1..];
      ReplaceConcat([c], v[1..], '\\', "\\\\");
      ReplaceConcat(one, ReplaceAll(v[1..], '\\', "\\\\"), '\n', "\\n");
      ReplaceConcat(two, ReplaceAll(ReplaceAll(v[1..], '\\', "\\\\"), '\n', "\\n"), '\"', "\\\"");
      EscapeOneChar(c);
      ThreePassesAreOne(v[1..]);
    }
  }

  lemma EscapeOneChar(c: char)
    ensures EscapeLabel([c]) == EscapeChar(c)
  {
    ReplaceOne(c, '\\', "\\\\");
    ReplaceOne(c, '\n', "\\n");
    ReplaceOne(c, '\"', "\\\"");
    ReplaceTwo('\\', '\\', '\n', "\\n");
    ReplaceTwo('\\', '\\', '\"', "\\\"");
    ReplaceTwo('\\', 'n', '\"', "\\\"");
  }

  /** What the format asks for: the three characters escaped, all others as they are. */
  lemma EscapesAsSpecified(a: string, c: char, b: string)
    ensures EscapeLabel("\\") == "\\\\" && EscapeLabel("\n") == "\\n" && EscapeLabel("\"") == "\\\""
    ensures c != '\\' && c != '\n' && c != '\"' ==> EscapeLabel([c]) == [c]
    ensures EscapeLabel(a + [c] + b) == EscapeLabel(a) + EscapeLabel([c]) + EscapeLabel(b)
  {
    EscapeOneChar('\\');
    EscapeOneChar('\n');
    EscapeOneChar('\"');
    EscapeOneChar(c);
    EscapeConcat(a + [c], b);
    EscapeConcat(a, [c]);
  }

  lemma EscapeConcat(a: string, b: string)
    ensures EscapeLabel(a + b) == EscapeLabel(a) + EscapeLabel(b)
  {
    ReplaceConcat(a, b, '\\', "\\\\");
    ReplaceConcat(ReplaceAll(a, '\\', "\\\\"), ReplaceAll(b, '\\', "\\\\"), '\n', "\\n");
    ReplaceConcat(ReplaceAll(ReplaceAll(a, '\\', "\\\\"), '\n', "\\n"),
                  ReplaceAll(ReplaceAll(b, '\\', "\\\\"), '\n', "\\n"), '\"', "\\\"");
  }

  /** Reads a label value up to its closing quote: the value, and what follows the
      quote. A raw newline, an unknown escape or a missing quote is an error. */
  function ScanLabel(s: string): (r: Option<(string, string)>)
    ensures r.Some? ==> |r.value.1| < |s|
  {
    if s == "" || s[0] == '\n' then None
    else if s[0] == '\"' then Some(("", s[1..]))
    else if s[0] != '\\' then Prepend(s[0], ScanLabel(s[1..]))
    else if |s| == 1 then None
    else if s[1] == '\\' then Prepend('\\', ScanLabel(s[2..]))
    else if s[1] == 'n' then Prepend('\n', ScanLabel(s[2..]))
    else if s[1] == '\"' then Prepend('\"', ScanLabel(s[2..]))
    else None
  }

  function Prepend(c: char, r: Option<(string, string)>): Option<(string, string)> {
    if r.Some? then Some(([c] + r.value.0, r.value.1)) else None
  }

  /** Whatever the value, and whatever follows it, it reads back as itself. */
  lemma {:induction false} LabelRoundTrip(v: string, rest: string)
    ensures ScanLabel(EscapeLabel(v) + "\"" + rest) == Some((v, rest))
  {
    ThreePassesAreOne(v);
    ScanOnePass(v, rest);
  }

  lemma {:induction false} ScanOnePass(v: string, rest: string)
    ensures ScanLabel(OnePass(v) + "\"" + rest) == Some((v, rest))
  {
    var s := OnePass(v) + "\"" + rest;
    if v == "" {
      assert s[1..] == rest;
    } else {
      var tail := OnePass(v[1..]) + "\"" + rest;
      ScanOnePass(v[1..], rest);
      assert s == EscapeChar(v[0]) + tail;
      assert v == [v[0]] + v[1..];
    }
  }

  // ---------- Counts ----------

  const DIGITS: string := "0123456789"

  predicate IsDigit(c: char) { '0' <= c <= '9' }

  function Decimal(n: nat): (s: string)
    ensures s != ""
  {
    if n < 10 then [DIGITS[n]] else Decimal(n / 10) + [DIGITS[n % 10]]
  }

  /** Reads digits onto what has been read so far. */
  function ScanDigits(s: string, sofar: nat): (r: (nat, string))
    ensures |r.1| <= |s|
  {
    if s != "" && IsDigit(s[0]) then ScanDigits(s[1..], sofar * 10 + (s[0] as int - '0' as int))
    else (sofar, s)
  }

  lemma {:induction false} DecimalRoundTrip(n: nat, rest: string)
    ensures ScanDigits(Decimal(n) + rest, 0) == ScanDigits(rest, n)
    ensures IsDigit(Decimal(n)[0])
  {
    if n < 10 {
    } else {
      var last := [DIGITS[n % 10]] + rest;
      DecimalRoundTrip(n / 10, last);
      assert Decimal(n) + rest == Decimal(n / 10) + last;
    }
  }

  // ---------- A family ----------

  /** `prefix` is the name of the family and what precedes the label value. */
  function Line(prefix: string, key: string, count: nat): string {
    prefix + EscapeLabel(key) + "\"} " + Decimal(count) + "\n"
  }

  /** A sample line as the format has it. */
  lemma LineExample()
    ensures Line("m{d=\"", "a", 12) == "m{d=\"a\"} 12\n"
  {
    EscapeOneChar('a');
    assert Decimal(12) == Decimal(1) + ['2'];
  }

  function Lines(prefix: string, keys: seq<string>, values: map<string, nat>): string
    requires forall k :: k in keys ==> k in values
  {
    if keys == [] then ""
    else Line(prefix, keys[0], values[keys[0]]) + Lines(prefix, keys[1..], values)
  }

  lemma Reassociate(a: string, b: string, c: string)
    ensures a + (b + c) == (a + b) + c
  {
  }

  lemma {:induction false} LinesSnoc(prefix: string, keys: seq<string>, key: string, values: map<string, nat>)
    requires key in values && forall k :: k in keys ==> k in values
    ensures Lines(prefix, keys + [key], values)
            == Lines(prefix, keys, values) + Line(prefix, key, values[key])
  {
    if keys == [] {
      assert keys + [key] == [key] && [key][1..] == [];
    } else {
      LinesSnoc(prefix, keys[1..], key, values);
      assert (keys + [key])[1..] == keys[1..] + [key];
      Reassociate(Line(prefix, keys[0], values[keys[0]]), Lines(prefix, keys[1..], values),
                  Line(prefix, key, values[key]));
    }
  }

  // ---------- In the order of their labels ----------

  predicate Ascending(keys: seq<string>) {
    forall i, j :: 0 <= i < j < |keys| ==> Less(keys[i], keys[j])
  }

  predicate SameKeys(a: seq<string>, b: seq<string>) {
    (forall k :: k in a ==> k in b) && (forall k :: k in b ==> k in a)
  }

  function Insert(keys: seq<string>, key: string): seq<string> {
    if keys == [] then [key]
    else if Less(key, keys[0]) then [key] + keys
    else [keys[0]] + Insert(keys[1..], key)
  }

  /** sort.Strings, for keys without repetitions. */
  function SortStrings(keys: seq<string>): seq<string> {
    if keys == [] then [] else Insert(SortStrings(keys[1..]), keys[0])
  }

  lemma {:induction false} InsertMembers(keys: seq<string>, key: string)
    ensures forall k :: k in Insert(keys, key) <==> k == key || k in keys
  {
    if keys != [] && !Less(key, keys[0]) {
      InsertMembers(keys[1..], key);
      assert keys == [keys[0]] + keys[1..];
    }
  }

  lemma {:induction false} InsertAscends(keys: seq<string>, key: string)
    requires Ascending(keys) && key !in keys
    ensures Ascending(Insert(keys, key))
  {
    if keys != [] {
      LessTotal(key, keys[0]);
      if Less(key, keys[0]) {
        forall j | 0 <= j < |keys| ensures Less(key, keys[j]) {
          if j > 0 { LessTransitive(key, keys[0], keys[j]); }
        }
      } else {
        InsertAscends(keys[1..], key);
        InsertMembers(keys[1..], key);
        var rest := Insert(keys[1..], key);
        forall j | 0 <= j < |rest| ensures Less(keys[0], rest[j]) {
          assert rest[j] in rest;
        }
      }
    }
  }

  predicate Distinct(keys: seq<string>) {
    forall i, j :: 0 <= i < j < |keys| ==> keys[i] != keys[j]
  }

  lemma {:induction false} SortSorts(keys: seq<string>)
    requires Distinct(keys)
    ensures Ascending(SortStrings(keys)) && SameKeys(SortStrings(keys), keys)
  {
    if keys != [] {
      var rest := keys[1..];
      SortSorts(rest);
      InsertMembers(SortStrings(rest), keys[0]);
      InsertAscends(SortStrings(rest), keys[0]);
      assert keys == [keys[0]] + rest;
    }
  }

  /** There is only one such order, so it does not matter in which one a map hands out
      its keys. */
  lemma {:induction false} AscendingUnique(a: seq<string>, b: seq<string>)
    requires Ascending(a) && Ascending(b) && SameKeys(a, b)
    ensures a == b
  {
    if a != [] && b != [] {
      FirstIsFirst(a, b);
      TailsSame(a, b);
      AscendingUnique(a[1..], b[1..]);
      assert a == [a[0]] + a[1..] && b == [b[0]] + b[1..];
    } else {
      if a != [] { HasKey(a); }
      if b != [] { HasKey(b); }
    }
  }

  lemma HasKey(keys: seq<string>)
    requires keys != []
    ensures exists k :: k in keys
  {
    assert keys[0] in keys;
  }

  lemma FirstIsFirst(a: seq<string>, b: seq<string>)
    requires Ascending(a) && Ascending(b) && SameKeys(a, b) && a != [] && b != []
    ensures a[0] == b[0]
  {
    assert a[0] in b && b[0] in a;
    var i :| 0 <= i < |b| && b[i] == a[0];
    var j :| 0 <= j < |a| && a[j] == b[0];
    LessTotal(a[0], b[0]);
  }

  lemma TailsSame(a: seq<string>, b: seq<string>)
    requires Ascending(a) && Ascending(b) && SameKeys(a, b) && a != [] && b != [] && a[0] == b[0]
    ensures SameKeys(a[1..], b[1..])
  {
    TailWithin(a, b);
    TailWithin(b, a);
  }

  lemma TailWithin(a: seq<string>, b: seq<string>)
    requires Ascending(a) && a != [] && b != [] && a[0] == b[0] && forall k :: k in a ==> k in b
    ensures forall k :: k in a[1..] ==> k in b[1..]
  {
    forall k | k in a[1..] ensures k in b[1..] {
      var i :| 0 <= i < |a[1..]| && a[1..][i] == k;
      assert a[i + 1] == k && Less(a[0], a[i + 1]);
      LessTotal(a[0], k);
      assert k in a && b == [b[0]] + b[1..];
    }
  }

  /** The keys of a map, each once, in order. */
  ghost predicate KeysOf(keys: seq<string>, values: map<string, nat>) {
    Ascending(keys) && (forall k :: k in keys <==> k in values)
  }

  /** labeled: header, one line per key of the map in ascending order, blank line. */
  method Labeled(name: string, typ: string, help: string, dim: string, values: map<string, nat>)
    returns (text: string)
    ensures exists keys ::
              && KeysOf(keys, values)
              && text == "# HELP " + name + " " + help + "\n# TYPE " + name + " " + typ + "\n"
                         + Lines(name + "{" + dim + "=\"", keys, values) + "\n"
  {
    text := "# HELP " + name + " " + help + "\n# TYPE " + name + " " + typ + "\n";
    ghost var header := text;
    var prefix := name + "{" + dim + "=\"";
    var unsorted := CollectKeys(values);
    SortSorts(unsorted);
    var sorted := SortStrings(unsorted);
    assert KeysOf(sorted, values);
    for n := 0 to |sorted|
      invariant text == header + Lines(prefix, sorted[..n], values)
    {
      LinesSnoc(prefix, sorted[..n], sorted[n], values);
      assert sorted[..n + 1] == sorted[..n] + [sorted[n]];
      text := text + Line(prefix, sorted[n], values[sorted[n]]);
      assert text == header + (Lines(prefix, sorted[..n], values) + Line(prefix, sorted[n], values[sorted[n]]));
    }
    assert sorted[..|sorted|] == sorted;
    text := text + "\n";
  }

  /** Ranging over the map, in whatever order. */
  method CollectKeys(values: map<string, nat>) returns (keys: seq<string>)
    ensures Distinct(keys) && forall k :: k in keys <==> k in values
  {
    keys := [];
    var rest := values.Keys;
    while rest != {}
      invariant Distinct(keys) && rest <= values.Keys
      invariant forall k :: k in keys <==> k in values.Keys - rest
      decreases |rest|
    {
      var k :| k in rest;
      assert k !in keys;
      assert forall i :: 0 <= i < |keys| ==> keys[i] in keys;
      keys := keys + [k];
      rest := rest - {k};
    }
  }

  /** Reads one sample line: its label value and count, and what follows it. */
  function ScanLine(prefix: string, s: string): (r: Option<(string, nat, string)>)
    ensures r.Some? ==> |r.value.2| < |s|
  {
    if !(prefix <= s) then None else
    match ScanLabel(s[|prefix|..])
    case None => None
    case Some((key, more)) =>
      if !("} " <= more) || |more| == 2 || !IsDigit(more[2]) then None else
      var (count, end) := ScanDigits(more[2..], 0);
      if end == "" || end[0] != '\n' then None else Some((key, count, end[1..]))
  }

  /** Reads sample lines up to a blank one. */
  function ScanFamily(prefix: string, s: string): Option<seq<(string, nat)>>
    decreases |s|
  {
    if s != "" && s[0] == '\n' then Some([])
    else
      match ScanLine(prefix, s)
      case None => None
      case Some((key, count, rest)) =>
        match ScanFamily(prefix, rest)
        case None => None
        case Some(samples) => Some([(key, count)] + samples)
  }

  /** A rendered line, whatever follows it, parses back to its label and count. */
  lemma LineRoundTrip(prefix: string, key: string, count: nat, rest: string)
    ensures ScanLine(prefix, Line(prefix, key, count) + rest) == Some((key, count, rest))
  {
    var s := Line(prefix, key, count) + rest;
    var end := "\n" + rest;
    var more := "} " + (Decimal(count) + end);
    LabelRoundTrip(key, more);
    assert s[|prefix|..] == EscapeLabel(key) + "\"" + more;
    DecimalRoundTrip(count, end);
    assert more[2..] == Decimal(count) + end;
    assert ScanDigits(end, count) == (count, end);
    assert end[1..] == rest;
  }

  /** The whole family reads back: every label value with its count, nothing else,
      whatever characters the labels hold. */
  lemma {:induction false} FamilyRoundTrip(prefix: string, keys: seq<string>, values: map<string, nat>, rest: string)
    requires prefix != "" && prefix[0] != '\n'
    requires forall k :: k in keys ==> k in values
    ensures var read := ScanFamily(prefix, Lines(prefix, keys, values) + "\n" + rest);
            && read.Some? && |read.value| == |keys|
            && forall k :: 0 <= k < |keys| ==> read.value[k] == (keys[k], values[keys[k]])
    decreases keys
  {
    if keys == [] {
      assert Lines(prefix, keys, values) + "\n" + rest == "\n" + rest;
    } else {
      var tail := Lines(prefix, keys[1..], values) + "\n" + rest;
      var line := Line(prefix, keys[0], values[keys[0]]);
      assert Lines(prefix, keys, values) + "\n" + rest == line + tail;
      assert (line + tail)[0] == prefix[0];
      LineRoundTrip(prefix, keys[0], values[keys[0]], tail);
      FamilyRoundTrip(prefix, keys[1..], values, rest);
    }
  }
}
