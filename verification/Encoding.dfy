/** Request-body codings: what is advertised is what can be decoded (encoding.go). */
module Encoding {
  import opened Wrappers

  // ---------- Normalising a coding ----------

  /** The letters: how one is lowered and which are white space. */
  datatype Text = Text(lower: char -> char, isSpace: char -> bool)

  function AsciiLower(c: char): char { if 'A' <= c <= 'Z' then (c as int + 32) as char else c }

  predicate AsciiSpace(c: char) {
    c == ' ' || c == '\t' || c == '\n' || c == '\r' || c as int == 11 || c as int == 12
  }

  /** ASCII as it is. Of the rest: lowering is done in one go, turns nothing into white
      space, and what it turns into ASCII becomes a letter, as the Kelvin sign does. */
  ghost predicate Sound(t: Text) {
    && (forall c: char :: c as int < 128 ==> t.lower(c) == AsciiLower(c) && t.isSpace(c) == AsciiSpace(c))
    && (forall c: char :: t.lower(t.lower(c)) == t.lower(c))
    && (forall c: char :: t.isSpace(t.lower(c)) ==> t.isSpace(c))
    && (forall c: char :: t.lower(c) as int < 128 && t.lower(c) != c ==> 'a' <= t.lower(c) <= 'z')
  }

  lemma AsciiIsSound()
    ensures Sound(Text(AsciiLower, AsciiSpace))
  {
  }

  /** What comes before the first c. */
  function Before(s: string, c: char): string {
    if s == "" || s[0] == c then "" else [s[0]] + Before(s[1..], c)
  }

  function TrimLeft(t: Text, s: string): string {
    if s != "" && t.isSpace(s[0]) then TrimLeft(t, s[1..]) else s
  }

  function TrimRight(t: Text, s: string): string {
    if s != "" && t.isSpace(s[|s| - 1]) then TrimRight(t, s[..|s| - 1]) else s
  }

  function Trim(t: Text, s: string): string { TrimRight(t, TrimLeft(t, s)) }

  function Lower(t: Text, s: string): string {
    if s == "" then "" else [t.lower(s[0])] + Lower(t, s[1..])
  }

  /** normalizeCoding. */
  function Normalize(t: Text, encoding: string): string {
    var enc := Lower(t, Trim(t, Before(encoding, ';')));
    if enc == "identity" then "" else enc
  }

  predicate Trimmed(t: Text, s: string) { s != "" ==> !t.isSpace(s[0]) && !t.isSpace(s[|s| - 1]) }

  lemma {:induction false} TrimRightKeeps(t: Text, s: string, c: char)
    ensures TrimRight(t, s) <= s
    ensures TrimRight(t, s) != "" ==> !t.isSpace(TrimRight(t, s)[|TrimRight(t, s)| - 1])
    ensures c !in s ==> c !in TrimRight(t, s)
  {
    if s != "" && t.isSpace(s[|s| - 1]) { TrimRightKeeps(t, s[..|s| - 1], c); }
  }

  lemma {:induction false} TrimLeftKeeps(t: Text, s: string, c: char)
    ensures TrimLeft(t, s) != "" ==> !t.isSpace(TrimLeft(t, s)[0])
    ensures c !in s ==> c !in TrimLeft(t, s)
  {
    if s != "" && t.isSpace(s[0]) { TrimLeftKeeps(t, s[1..], c); }
  }

  lemma TrimTrims(t: Text, s: string, c: char)
    ensures Trimmed(t, Trim(t, s))
    ensures c !in s ==> c !in Trim(t, s)
  {
    TrimLeftKeeps(t, s, c);
    TrimRightKeeps(t, TrimLeft(t, s), c);
  }

  lemma TrimmedStays(t: Text, s: string)
    requires Trimmed(t, s)
    ensures Trim(t, s) == s
  {
  }

  lemma {:induction false} LowerKeeps(t: Text, s: string, c: char)
    requires Sound(t) && c as int < 128 && !('a' <= c <= 'z')
    ensures |Lower(t, s)| == |s|
    ensures forall k :: 0 <= k < |s| ==> Lower(t, s)[k] == t.lower(s[k])
    ensures c !in s ==> c !in Lower(t, s)
    ensures Lower(t, Lower(t, s)) == Lower(t, s)
  {
    if s != "" {
      LowerKeeps(t, s[1..], c);
      assert Lower(t, s)[1..] == Lower(t, s[1..]);
      forall k | 0 <= k < |s| ensures Lower(t, s)[k] == t.lower(s[k]) {
        if k > 0 { assert Lower(t, s)[k] == Lower(t, s[1..])[k - 1]; }
      }
    }
  }

  lemma {:induction false} BeforeStops(s: string, c: char)
    ensures c !in Before(s, c)
    ensures c !in s ==> Before(s, c) == s
  {
    if s != "" && s[0] != c {
      BeforeStops(s[1..], c);
      assert s == [s[0]] + s[1..];
    }
  }

  /** A normalised coding normalises to itself. */
  lemma NormalizeTwice(t: Text, encoding: string)
    requires Sound(t)
    ensures Normalize(t, Normalize(t, encoding)) == Normalize(t, encoding)
  {
    NormalForm(t, encoding);
    Untouched(t, Lower(t, Trim(t, Before(encoding, ';'))));
    BeforeStops("", ';');
  }

  predicate Plain(t: Text, s: string) { ';' !in s && Trimmed(t, s) && Lower(t, s) == s }

  lemma NormalForm(t: Text, encoding: string)
    requires Sound(t)
    ensures Plain(t, Lower(t, Trim(t, Before(encoding, ';'))))
  {
    var cut := Before(encoding, ';');
    var trimmed := Trim(t, cut);
    BeforeStops(encoding, ';');
    TrimTrims(t, cut, ';');
    LowerKeeps(t, trimmed, ';');
  }

  lemma Untouched(t: Text, s: string)
    requires Plain(t, s)
    ensures Lower(t, Trim(t, Before(s, ';'))) == s
  {
    BeforeStops(s, ';');
    TrimmedStays(t, s);
  }

  lemma {:induction false} BeforeConcat(a: string, b: string, c: char)
    requires c !in a && b != "" && b[0] == c
    ensures Before(a + b, c) == a
  {
    if a == "" {
      assert a + b == b;
    } else {
      assert (a + b)[1..] == a[1..] + b;
      BeforeConcat(a[1..], b, c);
      assert a == [a[0]] + a[1..];
    }
  }

  predicate Blank(t: Text, s: string) { forall k :: 0 <= k < |s| ==> t.isSpace(s[k]) }

  lemma {:induction false} TrimLeftBlank(t: Text, left: string, s: string)
    requires Blank(t, left)
    ensures TrimLeft(t, left + s) == TrimLeft(t, s)
  {
    if left == "" {
      assert left + s == s;
    } else {
      assert (left + s)[1..] == left[1..] + s;
      TrimLeftBlank(t, left[1..], s);
    }
  }

  lemma {:induction false} TrimRightBlank(t: Text, s: string, right: string)
    requires Blank(t, right)
    ensures TrimRight(t, s + right) == TrimRight(t, s)
  {
    if right == "" {
      assert s + right == s;
    } else {
      assert (s + right)[..|s + right| - 1] == s + right[..|right| - 1];
      TrimRightBlank(t, s, right[..|right| - 1]);
    }
  }

  lemma TrimBlanks(t: Text, left: string, text: string, right: string)
    requires Blank(t, left) && Blank(t, right) && Trimmed(t, text)
    ensures Trim(t, left + (text + right)) == text
  {
    TrimLeftBlank(t, left, text + right);
    if text == "" {
      assert text + right == right && right + "" == right;
      TrimLeftBlank(t, right, "");
    } else {
      TrimRightBlank(t, text, right);
    }
  }

  /** Blanks around a coding and whatever follows a semicolon do not matter, nor does its
      case; "identity" is no coding. */
  lemma NormalizeReads(t: Text, left: string, text: string, right: string, rest: string)
    requires Blank(t, left) && Blank(t, right) && Trimmed(t, text)
    requires ';' !in left && ';' !in text && ';' !in right && (rest == "" || rest[0] == ';')
    ensures Normalize(t, left + (text + right) + rest)
            == if Lower(t, text) == "identity" then "" else Lower(t, text)
  {
    var padded := left + (text + right);
    if rest == "" {
      assert padded + rest == padded;
      BeforeStops(padded, ';');
    } else {
      BeforeConcat(padded, rest, ';');
    }
    TrimBlanks(t, left, text, right);
  }

  /** ASCII letters and blanks are what they are. */
  lemma AsciiRead(t: Text, c: char)
    requires Sound(t)
    ensures 'A' <= c <= 'Z' ==> t.lower(c) as int == c as int + 32
    ensures '!' <= c <= '~' && !('A' <= c <= 'Z') ==> t.lower(c) == c
    ensures '!' <= c <= '~' ==> !t.isSpace(c)
    ensures t.isSpace(' ') && t.isSpace('\t')
  {
  }

  // ---------- The advertised list ----------

  function Join(names: seq<string>): string {
    if names == [] then ""
    else if |names| == 1 then names[0]
    else names[0] + ", " + Join(names[1..])
  }

  /** A client's reading of the header: split at commas, trim. */
  function Split(t: Text, s: string): seq<string>
    decreases |s|
  {
    var first := Before(s, ',');
    BeforeIsPrefix(s, ',');
    if |first| == |s| then [Trim(t, s)] else [Trim(t, first)] + Split(t, s[|first| + 1..])
  }

  lemma {:induction false} BeforeIsPrefix(s: string, c: char)
    ensures Before(s, c) <= s
    ensures |Before(s, c)| < |s| ==> s[|Before(s, c)|] == c
  {
    if s != "" && s[0] != c { BeforeIsPrefix(s[1..], c); }
  }

  /** A coding name as it can appear in the list. */
  predicate ProperName(t: Text, name: string) {
    name != "" && Normalize(t, name) == name && ',' !in name
  }

  lemma ProperIsTrimmed(t: Text, name: string)
    requires Sound(t) && ProperName(t, name)
    ensures Trimmed(t, name)
  {
    NormalForm(t, name);
  }

  lemma SplitSkipsSpace(t: Text, s: string)
    requires t.isSpace(' ')
    ensures Split(t, " " + s) == Split(t, s)
  {
    var first := Before(s, ',');
    BeforeIsPrefix(s, ',');
    if |first| < |s| {
      assert (" " + s)[|first| + 2..] == s[|first| + 1..];
    }
  }

  lemma SplitAtComma(t: Text, first: string, more: string)
    requires ',' !in first
    ensures Split(t, first + ("," + more)) == [Trim(t, first)] + Split(t, more)
  {
    var all := first + ("," + more);
    BeforeConcat(first, "," + more, ',');
    assert all[|first| + 1..] == more;
  }

  lemma FirstNameRead(t: Text, first: string, rest: string)
    requires t.isSpace(' ') && Trimmed(t, first) && ',' !in first
    ensures Split(t, first + (", " + rest)) == [first] + Split(t, rest)
  {
    assert ", " + rest == "," + (" " + rest);
    SplitAtComma(t, first, " " + rest);
    TrimmedStays(t, first);
    SplitSkipsSpace(t, rest);
  }

  /** The names advertised are the names read, in order. */
  lemma {:induction false} AdvertisedNamesRead(t: Text, names: seq<string>)
    requires Sound(t) && names != [] && forall n :: n in names ==> ProperName(t, n)
    ensures Split(t, Join(names)) == names
    decreases names
  {
    assert ProperName(t, names[0]);
    ProperIsTrimmed(t, names[0]);
    TrimmedStays(t, names[0]);
    if |names| == 1 {
      BeforeStops(names[0], ',');
    } else {
      AdvertisedNamesRead(t, names[1..]);
      FirstNameRead(t, names[0], Join(names[1..]));
      assert Join(names) == names[0] + (", " + Join(names[1..]));
    }
  }

  /** Names of lower-case letters, as the service's own two are, can appear in the
      list. */
  lemma PlainName(t: Text, name: string)
    requires Sound(t)
    requires name != "" && name != "identity" && forall k :: 0 <= k < |name| ==> 'a' <= name[k] <= 'z'
    ensures ProperName(t, name)
  {
    assert !t.isSpace(name[0]) && !t.isSpace(name[|name| - 1]);
    LowerKeeps(t, name, ';');
    assert forall k :: 0 <= k < |name| ==> Lower(t, name)[k] == name[k];
    assert Lower(t, name) == name;
    Untouched(t, name);
  }

  lemma OwnHeader()
    ensures Join(["zstd", "gzip"]) == "zstd, gzip"
  {
    assert ["zstd", "gzip"][1..] == ["gzip"];
  }

  // ---------- Decoding a body ----------

  type Bytes = seq<bv8>

  /** `decode` gives None for a body it cannot decode. */
  datatype Codec = Codec(name: string, decode: Bytes -> Option<Bytes>)

  datatype Decoded = Decoded(body: Bytes) | Unsupported | Corrupt

  function Names(codecs: seq<Codec>): seq<string> {
    seq(|codecs|, i requires 0 <= i < |codecs| => codecs[i].name)
  }

  /** acceptEncoding: the header value, built from the list. */
  method AcceptEncoding(t: Text, codecs: seq<Codec>) returns (header: string)
    requires Sound(t) && codecs != [] && forall c :: c in codecs ==> ProperName(t, c.name)
    ensures Split(t, header) == Names(codecs)
  {
    var names: seq<string> := [];
    for i := 0 to |codecs|
      invariant names == Names(codecs)[..i]
    {
      names := names + [codecs[i].name];
    }
    assert names == Names(codecs);
    header := Join(names);
    forall n | n in Names(codecs) ensures ProperName(t, n) {
      var i :| 0 <= i < |codecs| && codecs[i].name == n;
    }
    AdvertisedNamesRead(t, Names(codecs));
  }

  /** decodeRequestBody: unsupported exactly when the coding is not among the names;
      otherwise the first codec of that name decides. */
  method DecodeRequestBody(t: Text, codecs: seq<Codec>, body: Bytes, encoding: string)
    returns (r: Decoded, coding: string)
    ensures coding == Normalize(t, encoding)
    ensures coding == "" ==> r == Decoded(body)
    ensures r.Unsupported? <==> coding != "" && coding !in Names(codecs)
    ensures coding != "" && coding in Names(codecs) ==>
              exists i :: 0 <= i < |codecs| && codecs[i].name == coding && coding !in Names(codecs)[..i]
                          && (match codecs[i].decode(body)
                              case Some(out) => r == Decoded(out)
                              case None => r == Corrupt)
  {
    coding := Normalize(t, encoding);
    if coding == "" {
      return Decoded(body), "";
    }
    for i := 0 to |codecs|
      invariant coding !in Names(codecs)[..i]
    {
      if codecs[i].name == coding {
        assert Names(codecs)[i] == coding;
        match codecs[i].decode(body)
        case Some(out) => return Decoded(out), coding;
        case None => return Corrupt, coding;
      }
    }
    assert Names(codecs)[..|codecs|] == Names(codecs);
    r := Unsupported;
  }
}
