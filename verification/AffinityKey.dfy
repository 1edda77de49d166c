/** The routing key of a conversation and the slot it maps to (handler.go
    affinityKey, pool.go slotFor). */
module AffinityKey {
  import opened JsonValues
  import opened Wrappers

  type Bytes = seq<bv8>

  // ---------- FNV-1a ----------

  const OFFSET32 := 0x811c9dc5
  const OFFSET64 := 0xcbf29ce484222325

  function Num(b: bv8): (n: nat)
    ensures n < 256
  {
    b as nat
  }

  function Low(h: nat): bv8 { (h % 256) as bv8 }

  /** h ^ b, which touches the low byte of h only. */
  function Xor(h: nat, b: bv8): nat { 256 * (h / 256) + Num(Low(h) ^ b) }

  /** One byte, in 32 and in 64 bits. */
  function Mix32(h: nat, b: bv8): nat { Xor(h, b) * 16777619 % 0x1_0000_0000 }
  function Mix64(h: nat, b: bv8): nat { Xor(h, b) * 1099511628211 % 0x1_0000_0000_0000_0000 }

  function Fnv64(h: nat, bytes: Bytes): nat
    decreases bytes
  {
    if bytes == [] then h else Fnv64(Mix64(h, bytes[0]), bytes[1..])
  }

  function Fnv32(h: nat, bytes: Bytes): nat
    decreases bytes
  {
    if bytes == [] then h else Fnv32(Mix32(h, bytes[0]), bytes[1..])
  }

  /** Writing two chunks is writing their concatenation. */
  lemma {:induction false} WritesConcatenate(h: nat, a: Bytes, b: Bytes)
    ensures Fnv64(h, a + b) == Fnv64(Fnv64(h, a), b)
    decreases a
  {
    if a == [] {
      assert a + b == b;
    } else {
      assert (a + b)[1..] == a[1..] + b;
      WritesConcatenate(Mix64(h, a[0]), a[1..], b);
    }
  }

  /** One Write: the bytes mixed in, one after the other. */
  method Write64(h: nat, bytes: Bytes) returns (r: nat)
    ensures r == Fnv64(h, bytes)
  {
    r := h;
    for n := 0 to |bytes|
      invariant Fnv64(r, bytes[n..]) == Fnv64(h, bytes)
    {
      assert bytes[n..][0] == bytes[n] && bytes[n..][1..] == bytes[n + 1..];
      r := Mix64(r, bytes[n]);
    }
  }

  method Write32(h: nat, bytes: Bytes) returns (r: nat)
    ensures r == Fnv32(h, bytes)
  {
    r := h;
    for n := 0 to |bytes|
      invariant Fnv32(r, bytes[n..]) == Fnv32(h, bytes)
    {
      assert bytes[n..][0] == bytes[n] && bytes[n..][1..] == bytes[n + 1..];
      r := Mix32(r, bytes[n]);
    }
  }

  lemma LowBytes()
    ensures Num(Low(OFFSET32) ^ 97) == 164 && Num(Low(OFFSET32) ^ 98) == 167
  {
  }

  lemma LowBytes64()
    ensures Num(Low(OFFSET64) ^ 97) == 68 && Num(Low(OFFSET64) ^ 98) == 71
  {
  }

  lemma OneByte(h: nat, b: bv8)
    ensures Fnv32(h, [b]) == Mix32(h, b) && Fnv64(h, [b]) == Mix64(h, b)
  {
    assert [b][1..] == [];
  }

  lemma Products(h: nat, x: nat, y: nat)
    requires h / 256 == 0x811c9d && x == 164 && y == 167
    ensures (256 * (h / 256) + x) * 16777619 % 0x1_0000_0000 == 0xe40c292c
    ensures (256 * (h / 256) + y) * 16777619 % 0x1_0000_0000 == 0xe70c2de5
  {
  }

  lemma Products64(h: nat, x: nat, y: nat)
    requires h / 256 == 0xcbf29ce4842223 && x == 68 && y == 71
    ensures (256 * (h / 256) + x) * 1099511628211 % 0x1_0000_0000_0000_0000 == 0xaf63dc4c8601ec8c
    ensures (256 * (h / 256) + y) * 1099511628211 % 0x1_0000_0000_0000_0000 == 0xaf63df4c8601f1a5
  {
  }

  /** The published values of the hash for "", "a" and "b". */
  lemma PublishedValues()
    ensures Fnv32(OFFSET32, []) == 0x811c9dc5
    ensures Fnv32(OFFSET32, [97]) == 0xe40c292c && Fnv32(OFFSET32, [98]) == 0xe70c2de5
  {
    LowBytes();
    OneByte(OFFSET32, 97);
    OneByte(OFFSET32, 98);
    Products(OFFSET32, Num(Low(OFFSET32) ^ 97), Num(Low(OFFSET32) ^ 98));
  }

  lemma PublishedValues64()
    ensures Fnv64(OFFSET64, []) == 0xcbf29ce484222325
    ensures Fnv64(OFFSET64, [97]) == 0xaf63dc4c8601ec8c && Fnv64(OFFSET64, [98]) == 0xaf63df4c8601f1a5
  {
    LowBytes64();
    OneByte(OFFSET64, 97);
    OneByte(OFFSET64, 98);
    Products64(OFFSET64, Num(Low(OFFSET64) ^ 97), Num(Low(OFFSET64) ^ 98));
  }

  // ---------- What it keeps apart ----------

  lemma NumOf(n: nat)
    requires n < 256
    ensures Num(n as bv8) == n
  {
  }

  lemma NumLow(h: nat)
    ensures Num(Low(h)) == h % 256
  {
    NumOf(h % 256);
  }

  lemma NumInjective(x: bv8, y: bv8)
    requires Num(x) == Num(y)
    ensures x == y
  {
  }

  lemma XorCancels(b: bv8, c: bv8, d: bv8)
    ensures b ^ d == c ^ d ==> b == c
    ensures d ^ b == d ^ c ==> b == c
  {
  }

  lemma Digits(a: nat, r: nat, b: nat, s: nat)
    requires r < 256 && s < 256 && 256 * a + r == 256 * b + s
    ensures a == b && r == s
  {
  }

  lemma SameDigits(h: nat, g: nat)
    requires h / 256 == g / 256 && h % 256 == g % 256
    ensures h == g
  {
  }

  lemma XorSplits(h: nat, g: nat, b: bv8, c: bv8)
    requires Xor(h, b) == Xor(g, c)
    ensures h / 256 == g / 256 && Low(h) ^ b == Low(g) ^ c
  {
    Digits(h / 256, Num(Low(h) ^ b), g / 256, Num(Low(g) ^ c));
    NumInjective(Low(h) ^ b, Low(g) ^ c);
  }

  lemma XorSameByte(h: nat, g: nat, b: bv8)
    requires Xor(h, b) == Xor(g, b)
    ensures h == g
  {
    XorSplits(h, g, b, b);
    XorCancels(Low(h), Low(g), b);
    NumLow(h);
    NumLow(g);
    SameDigits(h, g);
  }

  lemma XorSameHash(h: nat, b: bv8, c: bv8)
    requires Xor(h, b) == Xor(h, c)
    ensures b == c
  {
    XorSplits(h, h, b, c);
    XorCancels(b, c, Low(h));
  }

  lemma Below32(q: nat, n: nat)
    requires q < 0x100_0000 && n < 256
    ensures 256 * q + n < 0x1_0000_0000
  {
  }

  lemma XorFits(h: nat, b: bv8)
    requires h < 0x1_0000_0000
    ensures Xor(h, b) < 0x1_0000_0000
  {
    Below32(h / 256, Num(Low(h) ^ b));
  }

  /** Multiplying by the prime can be undone modulo 2^32. */
  lemma TimesPrime32(x: nat)
    requires x < 0x1_0000_0000
    ensures x * 16777619 % 0x1_0000_0000 * 899433627 % 0x1_0000_0000 == x
  {
    var q, r := x * 16777619 / 0x1_0000_0000, x * 16777619 % 0x1_0000_0000;
    assert r == x * 16777619 - q * 0x1_0000_0000;
    assert r * 899433627 == x + 0x1_0000_0000 * (3513497 * x - 899433627 * q);
    Remainder(x, 3513497 * x - 899433627 * q);
  }

  lemma Remainder(x: nat, z: int)
    requires x < 0x1_0000_0000
    ensures (x + 0x1_0000_0000 * z) % 0x1_0000_0000 == x
  {
  }

  lemma Mix32Agrees(h: nat, g: nat, b: bv8, c: bv8)
    requires h < 0x1_0000_0000 && g < 0x1_0000_0000 && Mix32(h, b) == Mix32(g, c)
    ensures Xor(h, b) == Xor(g, c)
  {
    XorFits(h, b);
    XorFits(g, c);
    TimesPrime32(Xor(h, b));
    TimesPrime32(Xor(g, c));
  }

  /** Different hashes stay different under the same byte. */
  lemma SameByte(h: nat, g: nat, b: bv8)
    requires h < 0x1_0000_0000 && g < 0x1_0000_0000 && Mix32(h, b) == Mix32(g, b)
    ensures h == g
  {
    Mix32Agrees(h, g, b, b);
    XorSameByte(h, g, b);
  }

  /** And the same hash becomes different under different bytes. */
  lemma SameHash(h: nat, b: bv8, c: bv8)
    requires h < 0x1_0000_0000 && Mix32(h, b) == Mix32(h, c)
    ensures b == c
  {
    Mix32Agrees(h, h, b, c);
    XorSameHash(h, b, c);
  }

  lemma {:induction false} Fnv32Injective(h: nat, g: nat, bytes: Bytes)
    requires h < 0x1_0000_0000 && g < 0x1_0000_0000 && h != g
    ensures Fnv32(h, bytes) != Fnv32(g, bytes)
    decreases bytes
  {
    if bytes != [] {
      if Mix32(h, bytes[0]) == Mix32(g, bytes[0]) { SameByte(h, g, bytes[0]); }
      Fnv32Injective(Mix32(h, bytes[0]), Mix32(g, bytes[0]), bytes[1..]);
    }
  }

  /** Keys that differ in one byte hash differently. */
  lemma {:induction false} OneByteTells(h: nat, before: Bytes, b: bv8, c: bv8, after: Bytes)
    requires h < 0x1_0000_0000 && b != c
    ensures Fnv32(h, before + [b] + after) != Fnv32(h, before + [c] + after)
    decreases before
  {
    var x, y := before + [b] + after, before + [c] + after;
    if before == [] {
      assert x[1..] == after && y[1..] == after;
      if Mix32(h, b) == Mix32(h, c) { SameHash(h, b, c); }
      Fnv32Injective(Mix32(h, b), Mix32(h, c), after);
    } else {
      assert x[1..] == before[1..] + [b] + after && y[1..] == before[1..] + [c] + after;
      OneByteTells(Mix32(h, before[0]), before[1..], b, c, after);
    }
  }

  // ---------- Its lowest bit ----------

  lemma ByteParity(b: bv8)
    ensures Num(b) % 2 == if b & 1 == 1 then 1 else 0
  {
  }

  lemma XorBit(b: bv8, c: bv8)
    ensures (b ^ c) & 1 == 1 <==> (b & 1 == 1) != (c & 1 == 1)
  {
  }

  lemma ParitiesAdd(p: nat, q: nat, r: nat, x: bool, y: bool)
    requires p % 2 == (if x then 1 else 0) && q % 2 == (if y then 1 else 0) && r % 2 == if x != y then 1 else 0
    ensures r % 2 == (p + q) % 2
  {
  }

  lemma XorParity(b: bv8, c: bv8)
    ensures Num(b ^ c) % 2 == (Num(b) + Num(c)) % 2
  {
    ByteParity(b);
    ByteParity(c);
    ByteParity(b ^ c);
    XorBit(b, c);
    ParitiesAdd(Num(b), Num(c), Num(b ^ c), b & 1 == 1, c & 1 == 1);
  }

  lemma LowParity(q: nat, n: nat)
    ensures (256 * q + n) % 2 == n % 2
  {
    assert 256 * q + n == 2 * (128 * q) + n;
  }

  lemma EvenMore(x: nat, z: int, r: nat)
    requires r == x + 2 * z
    ensures r % 2 == x % 2
  {
  }

  lemma OddTimes(x: nat, q: nat, r: nat)
    requires r == x * 16777619 - q * 0x1_0000_0000
    ensures r % 2 == x % 2
  {
    EvenMore(x, 8388809 * x - 0x8000_0000 * q, r);
  }

  lemma SameParity(a: nat, b: nat, c: nat)
    requires a % 2 == b % 2
    ensures (a + c) % 2 == (b + c) % 2
  {
  }

  lemma DigitParity(q: nat, r: nat, x: nat, n: nat)
    requires x % 2 == (r + n) % 2
    ensures (256 * q + x) % 2 == (256 * q + r + n) % 2
  {
    LowParity(q, x);
    LowParity(q, r + n);
  }

  lemma Recombine(h: nat)
    ensures 256 * (h / 256) + h % 256 == h
  {
  }

  lemma LowDecides(h: nat, x: nat, n: nat)
    requires x % 2 == (h % 256 + n) % 2
    ensures (256 * (h / 256) + x) % 2 == (h + n) % 2
  {
    DigitParity(h / 256, h % 256, x, n);
    Recombine(h);
  }

  lemma LowXorParity(h: nat, b: bv8)
    ensures Num(Low(h) ^ b) % 2 == (h % 256 + Num(b)) % 2
  {
    XorParity(Low(h), b);
    NumLow(h);
  }

  lemma WordParity(h: nat, b: bv8)
    ensures Xor(h, b) % 2 == (h + Num(b)) % 2
  {
    LowXorParity(h, b);
    LowDecides(h, Num(Low(h) ^ b), Num(b));
  }

  lemma Mix32Parity(h: nat, b: bv8)
    ensures Mix32(h, b) % 2 == (h + Num(b)) % 2
  {
    var x := Xor(h, b);
    OddTimes(x, x * 16777619 / 0x1_0000_0000, x * 16777619 % 0x1_0000_0000);
    WordParity(h, b);
  }

  function ByteSum(bytes: Bytes): nat {
    if bytes == [] then 0 else Num(bytes[0]) + ByteSum(bytes[1..])
  }

  lemma {:induction false} Fnv32Parity(h: nat, bytes: Bytes)
    ensures Fnv32(h, bytes) % 2 == (h + ByteSum(bytes)) % 2
    decreases bytes
  {
    if bytes != [] {
      Mix32Parity(h, bytes[0]);
      Fnv32Parity(Mix32(h, bytes[0]), bytes[1..]);
      SameParity(Mix32(h, bytes[0]), h + Num(bytes[0]), ByteSum(bytes[1..]));
    }
  }

  // ---------- Canonical encoding ----------

  /** The text of leaves: a quoted string, and a number literal after a trip through
      float64, absent when it is out of range. */
  datatype Leaves = Leaves(quote: string -> Bytes, number: string -> Option<Bytes>)

  predicate Less(a: string, b: string) {
    b != "" && (a == "" || a[0] < b[0] || (a[0] == b[0] && Less(a[1..], b[1..])))
  }

  /** At k the strings part, or a ends. */
  predicate PartsAt(a: string, b: string, k: nat) {
    && k <= |a| && k < |b| && a[..k] == b[..k]
    && (k == |a| || a[k] < b[k])
  }

  lemma PartedAgree(a: string, b: string, k: nat)
    requires PartsAt(a, b, k)
    ensures k == 0 || a[0] == b[0]
  {
    if k > 0 { assert a[..k][0] == b[..k][0]; }
  }

  /** The order is lexicographic. */
  lemma {:induction false} LessIsLexicographic(a: string, b: string)
    ensures Less(a, b) <==> exists k: nat :: PartsAt(a, b, k)
  {
    if b == "" {
    } else if a == "" || a[0] < b[0] {
      assert PartsAt(a, b, 0);
    } else if a[0] == b[0] {
      LessIsLexicographic(a[1..], b[1..]);
      if k: nat :| PartsAt(a[1..], b[1..], k) {
        assert a[..k + 1] == [a[0]] + a[1..][..k] && b[..k + 1] == [b[0]] + b[1..][..k];
        assert PartsAt(a, b, k + 1);
      }
      if k: nat :| PartsAt(a, b, k) {
        assert k > 0;
        assert a[1..][..k - 1] == a[..k][1..] && b[1..][..k - 1] == b[..k][1..];
        assert PartsAt(a[1..], b[1..], k - 1);
      }
    } else {
      forall k: nat | PartsAt(a, b, k) ensures k == 0 || a[0] == b[0] { PartedAgree(a, b, k); }
    }
  }

  lemma {:induction false} LessTransitive(a: string, b: string, c: string)
    requires Less(a, b) && Less(b, c)
    ensures Less(a, c)
  {
    if a != "" && a[0] == b[0] && b[0] == c[0] {
      LessTransitive(a[1..], b[1..], c[1..]);
    }
  }

  lemma {:induction false} LessTotal(a: string, b: string)
    ensures a == b || Less(a, b) || Less(b, a)
    ensures !(Less(a, b) && Less(b, a)) && (a == b ==> !Less(a, b))
  {
    if a != "" && b != "" && a[0] == b[0] {
      LessTotal(a[1..], b[1..]);
      assert a == [a[0]] + a[1..] && b == [b[0]] + b[1..];
    }
  }

  /** Fields sorted by key, each with its encoded value. */
  type Table = seq<(string, Bytes)>

  /** Assignment to a key of a sorted table. */
  function Put(table: Table, key: string, value: Bytes): Table {
    if table == [] then [(key, value)]
    else if table[0].0 == key then [(key, value)] + table[1..]
    else if Less(key, table[0].0) then [(key, value)] + table
    else [table[0]] + Put(table[1..], key, value)
  }

  predicate Encodable(leaves: Leaves, v: Json) {
    match v
    case JNum(literal) => leaves.number(literal).Some?
    case JArr(items) => forall k :: 0 <= k < |items| ==> Encodable(leaves, items[k])
    case JObj(fields) => forall k :: 0 <= k < |fields| ==> Encodable(leaves, fields[k].value)
    case _ => true
  }

  const NULL: Bytes := [110, 117, 108, 108]
  const TRUE: Bytes := [116, 114, 117, 101]
  const FALSE: Bytes := [102, 97, 108, 115, 101]
  const COMMA: Bytes := [44]
  const COLON: Bytes := [58]

  /** json.Marshal of the parsed value: object keys sorted, a repeated key keeping its
      last value. */
  function Encode(leaves: Leaves, v: Json): Bytes
    decreases v, 1
  {
    match v
    case JNull => NULL
    case JBool(b) => if b then TRUE else FALSE
    case JNum(literal) => (
      match leaves.number(literal)
      case Some(text) => text
      case None => [])
    case JStr(s) => leaves.quote(s)
    case JArr(items) => [91] + EncodeItems(leaves, items) + [93]
    case JObj(fields) => [123] + TableText(leaves, SortPairs(Pairs(leaves, fields))) + [125]
  }

  function EncodeItems(leaves: Leaves, items: seq<Json>): Bytes
    decreases items, 0
  {
    if items == [] then []
    else
      var front := EncodeItems(leaves, items[..|items| - 1]);
      (if front == [] then [] else front + COMMA) + Encode(leaves, items[|items| - 1])
  }

  function Pairs(leaves: Leaves, fields: seq<Field>): Table
    decreases fields, 0
  {
    if fields == [] then []
    else
      var last := fields[|fields| - 1];
      Pairs(leaves, fields[..|fields| - 1]) + [(last.key, Encode(leaves, last.value))]
  }

  /** The pairs assigned one after the other to a table kept sorted. */
  function SortPairs(pairs: Table): Table {
    if pairs == [] then []
    else Put(SortPairs(pairs[..|pairs| - 1]), pairs[|pairs| - 1].0, pairs[|pairs| - 1].1)
  }

  function TableText(leaves: Leaves, table: Table): Bytes {
    if table == [] then []
    else
      leaves.quote(table[0].0) + COLON + table[0].1
      + (if |table| == 1 then [] else COMMA + TableText(leaves, table[1..]))
  }

  // ---------- The text is JSON ----------

  /** Every leaf has some text. */
  ghost predicate Speaks(leaves: Leaves) {
    && (forall s: string :: leaves.quote(s) != [])
    && (forall l: string :: leaves.number(l) != Some([]))
  }

  /** Parts with commas between them. */
  function Commas(parts: seq<Bytes>): Bytes {
    if parts == [] then [] else if |parts| == 1 then parts[0] else parts[0] + [44] + Commas(parts[1..])
  }

  lemma {:induction false} CommasSnoc(parts: seq<Bytes>, last: Bytes)
    requires parts != []
    ensures Commas(parts + [last]) == Commas(parts) + [44] + last
  {
    if |parts| == 1 {
      assert (parts + [last])[1..] == [last];
    } else {
      CommasSnoc(parts[1..], last);
      assert (parts + [last])[1..] == parts[1..] + [last];
    }
  }

  function Encodings(leaves: Leaves, items: seq<Json>): seq<Bytes> {
    seq(|items|, k requires 0 <= k < |items| => Encode(leaves, items[k]))
  }

  lemma HasText(leaves: Leaves, v: Json)
    requires Speaks(leaves) && Encodable(leaves, v)
    ensures Encode(leaves, v) != []
  {
  }

  lemma {:induction false} ItemsText(leaves: Leaves, items: seq<Json>)
    requires Speaks(leaves) && forall k :: 0 <= k < |items| ==> Encodable(leaves, items[k])
    ensures EncodeItems(leaves, items) == Commas(Encodings(leaves, items))
    ensures items != [] ==> EncodeItems(leaves, items) != []
  {
    if items != [] {
      var n := |items| - 1;
      ItemsText(leaves, items[..n]);
      HasText(leaves, items[n]);
      assert Encodings(leaves, items) == Encodings(leaves, items[..n]) + [Encode(leaves, items[n])];
      if n > 0 { CommasSnoc(Encodings(leaves, items[..n]), Encode(leaves, items[n])); }
    }
  }

  function Rows(leaves: Leaves, table: Table): seq<Bytes> {
    seq(|table|, k requires 0 <= k < |table| => leaves.quote(table[k].0) + [58] + table[k].1)
  }

  lemma {:induction false} RowsText(leaves: Leaves, table: Table)
    ensures TableText(leaves, table) == Commas(Rows(leaves, table))
  {
    if table != [] {
      RowsText(leaves, table[1..]);
      assert Rows(leaves, table) == [leaves.quote(table[0].0) + [58] + table[0].1] + Rows(leaves, table[1..]);
    }
  }

  /** What is hashed of a message is compact JSON: the literals, arrays in order, and
      objects with one field per key, the keys ascending and each with its last value. */
  lemma EncodesAsJson(leaves: Leaves, items: seq<Json>, fields: seq<Field>, text: string)
    requires Speaks(leaves) && forall k :: 0 <= k < |items| ==> Encodable(leaves, items[k])
    ensures Encodable(leaves, JNull) && Encodable(leaves, JBool(true)) && Encodable(leaves, JBool(false))
    ensures Encodable(leaves, JStr(text)) && (Encodable(leaves, JNum(text)) <==> leaves.number(text).Some?)
    ensures Encodable(leaves, JArr(items))
    ensures Encodable(leaves, JObj(fields)) <==>
              forall k :: 0 <= k < |fields| ==> Encodable(leaves, fields[k].value)
    ensures Encode(leaves, JNull) == [110, 117, 108, 108]
    ensures Encode(leaves, JBool(true)) == [116, 114, 117, 101]
    ensures Encode(leaves, JBool(false)) == [102, 97, 108, 115, 101]
    ensures Encode(leaves, JStr(text)) == leaves.quote(text)
    ensures leaves.number(text).Some? ==> Encode(leaves, JNum(text)) == leaves.number(text).value
    ensures Encode(leaves, JArr(items)) == [91] + Commas(Encodings(leaves, items)) + [93]
    ensures exists table ::
              && Sorted(table) && AsMap(table) == LastWins(Pairs(leaves, fields))
              && Encode(leaves, JObj(fields)) == [123] + Commas(Rows(leaves, table)) + [125]
  {
    ItemsText(leaves, items);
    var table := SortPairs(Pairs(leaves, fields));
    SortedMap(Pairs(leaves, fields));
    RowsText(leaves, table);
    assert Encode(leaves, JObj(fields)) == [123] + Commas(Rows(leaves, table)) + [125];
  }

  // ---------- Key order does not matter ----------

  predicate DistinctKeys(fields: seq<Field>) {
    forall i, j :: 0 <= i < j < |fields| ==> fields[i].key != fields[j].key
  }

  function Keys(fields: seq<Field>): set<string> {
    set k | 0 <= k < |fields| :: fields[k].key
  }

  /** The same value up to the order of object keys, at any depth. */
  predicate Same(leaves: Leaves, a: Json, b: Json) {
    match a
    case JNum(m) => b.JNum? && leaves.number(m) == leaves.number(b.literal)
    case JArr(xs) =>
      b.JArr? && |xs| == |b.items| && forall k :: 0 <= k < |xs| ==> Same(leaves, xs[k], b.items[k])
    case JObj(fs) =>
      && b.JObj? && DistinctKeys(fs) && DistinctKeys(b.fields) && Keys(fs) == Keys(b.fields)
      && forall i, j :: 0 <= i < |fs| && 0 <= j < |b.fields| && fs[i].key == b.fields[j].key ==>
           Same(leaves, fs[i].value, b.fields[j].value)
    case _ => a == b
  }

  predicate Sorted(table: Table) {
    forall i, j :: 0 <= i < j < |table| ==> Less(table[i].0, table[j].0)
  }

  function AsMap(table: Table): map<string, Bytes> {
    if table == [] then map[] else AsMap(table[1..])[table[0].0 := table[0].1]
  }

  lemma {:induction false} InMap(table: Table, key: string)
    ensures key in AsMap(table) <==> exists k :: 0 <= k < |table| && table[k].0 == key
  {
    if table != [] {
      InMap(table[1..], key);
      if key in AsMap(table) {
        if key == table[0].0 { assert table[0].0 == key; }
        else {
          var k :| 0 <= k < |table[1..]| && table[1..][k].0 == key;
          assert table[k + 1].0 == key;
        }
      }
      if k :| 0 <= k < |table| && table[k].0 == key {
        if k > 0 { assert table[1..][k - 1].0 == key; }
      }
    }
  }

  lemma {:induction false} PutIsUpdate(table: Table, key: string, value: Bytes)
    requires Sorted(table)
    ensures Sorted(Put(table, key, value))
    ensures AsMap(Put(table, key, value)) == AsMap(table)[key := value]
  {
    var put := Put(table, key, value);
    if table == [] {
    } else if table[0].0 == key {
      assert put[1..] == table[1..];
    } else if Less(key, table[0].0) {
      assert put[1..] == table;
      forall j | 0 <= j < |table| ensures Less(key, table[j].0) {
        if j > 0 { LessTransitive(key, table[0].0, table[j].0); }
      }
    } else {
      LessTotal(key, table[0].0);
      var rest := Put(table[1..], key, value);
      PutIsUpdate(table[1..], key, value);
      assert put[1..] == rest && put[0] == table[0];
      forall k | 0 <= k < |rest| ensures Less(table[0].0, rest[k].0) { StillAbove(table, rest, key, value, k); }
    }
  }

  lemma StillAbove(table: Table, rest: Table, key: string, value: Bytes, k: nat)
    requires table != [] && Sorted(table) && Less(table[0].0, key) && k < |rest|
    requires AsMap(rest) == AsMap(table[1..])[key := value]
    ensures Less(table[0].0, rest[k].0)
  {
    InMap(rest, rest[k].0);
    if rest[k].0 != key {
      InMap(table[1..], rest[k].0);
      var j :| 0 <= j < |table[1..]| && table[1..][j].0 == rest[k].0;
      assert table[j + 1].0 == rest[k].0;
    }
  }

  /** A table sorted by key is determined by what it maps to what. */
  lemma {:induction false} SortedTablesAgree(t: Table, u: Table)
    requires Sorted(t) && Sorted(u) && AsMap(t) == AsMap(u)
    ensures t == u
  {
    if t != [] && u != [] {
      HeadsAgree(t, u);
      TailMap(t);
      TailMap(u);
      SortedTablesAgree(t[1..], u[1..]);
      assert t == [t[0]] + t[1..] && u == [u[0]] + u[1..];
    } else {
      HeadInMap(t);
      HeadInMap(u);
    }
  }

  lemma HeadInMap(t: Table)
    ensures t == [] <==> AsMap(t) == map[]
  {
    if t != [] { assert t[0].0 in AsMap(t); }
  }

  lemma HeadsAgree(t: Table, u: Table)
    requires Sorted(t) && Sorted(u) && AsMap(t) == AsMap(u) && t != [] && u != []
    ensures t[0] == u[0]
  {
    InMap(u, t[0].0);
    InMap(t, u[0].0);
    assert t[0].0 in AsMap(t) && u[0].0 in AsMap(u);
    var j :| 0 <= j < |u| && u[j].0 == t[0].0;
    var i :| 0 <= i < |t| && t[i].0 == u[0].0;
    LessTotal(t[0].0, u[0].0);
    assert AsMap(t)[t[0].0] == t[0].1 && AsMap(u)[u[0].0] == u[0].1;
  }

  lemma TailMap(t: Table)
    requires Sorted(t) && t != []
    ensures AsMap(t[1..]) == AsMap(t) - {t[0].0}
  {
    InMap(t[1..], t[0].0);
    if t[0].0 in AsMap(t[1..]) {
      var k :| 0 <= k < |t[1..]| && t[1..][k].0 == t[0].0;
      LessTotal(t[0].0, t[k + 1].0);
    }
  }

  /** The last value of each key. */
  function LastWins(pairs: Table): map<string, Bytes> {
    if pairs == [] then map[]
    else LastWins(pairs[..|pairs| - 1])[pairs[|pairs| - 1].0 := pairs[|pairs| - 1].1]
  }

  lemma {:induction false} SortedMap(pairs: Table)
    ensures Sorted(SortPairs(pairs)) && AsMap(SortPairs(pairs)) == LastWins(pairs)
  {
    if pairs != [] {
      SortedMap(pairs[..|pairs| - 1]);
      PutIsUpdate(SortPairs(pairs[..|pairs| - 1]), pairs[|pairs| - 1].0, pairs[|pairs| - 1].1);
    }
  }

  predicate DistinctPairs(pairs: Table) {
    forall i, j :: 0 <= i < j < |pairs| ==> pairs[i].0 != pairs[j].0
  }

  lemma {:induction false} DistinctLookup(pairs: Table)
    requires DistinctPairs(pairs)
    ensures forall k :: 0 <= k < |pairs| ==> pairs[k].0 in LastWins(pairs) && LastWins(pairs)[pairs[k].0] == pairs[k].1
    ensures forall key :: key in LastWins(pairs) ==> exists k :: 0 <= k < |pairs| && pairs[k].0 == key
  {
    if pairs != [] {
      var front := pairs[..|pairs| - 1];
      DistinctLookup(front);
      forall key | key in LastWins(pairs) ensures exists k :: 0 <= k < |pairs| && pairs[k].0 == key {
        if key == pairs[|pairs| - 1].0 { assert pairs[|pairs| - 1].0 == key; }
        else {
          assert key in LastWins(front);
          var k :| 0 <= k < |front| && front[k].0 == key;
          assert pairs[k].0 == key;
        }
      }
      forall k | 0 <= k < |pairs| ensures pairs[k].0 in LastWins(pairs) && LastWins(pairs)[pairs[k].0] == pairs[k].1 {
        if k < |front| { assert front[k] == pairs[k]; }
      }
    }
  }

  lemma LookupIncluded(p: Table, q: Table)
    requires DistinctPairs(p) && DistinctPairs(q)
    requires forall i :: 0 <= i < |p| ==> p[i] in q
    ensures forall key :: key in LastWins(p) ==> key in LastWins(q) && LastWins(p)[key] == LastWins(q)[key]
  {
    DistinctLookup(p);
    DistinctLookup(q);
    forall key | key in LastWins(p) ensures key in LastWins(q) && LastWins(p)[key] == LastWins(q)[key] {
      var i :| 0 <= i < |p| && p[i].0 == key;
      assert p[i] in q;
      var j :| 0 <= j < |q| && q[j] == p[i];
      assert q[j].0 in LastWins(q);
    }
  }

  lemma SamePairsSameMap(p: Table, q: Table)
    requires DistinctPairs(p) && DistinctPairs(q)
    requires forall i :: 0 <= i < |p| ==> p[i] in q
    requires forall j :: 0 <= j < |q| ==> q[j] in p
    ensures LastWins(p) == LastWins(q)
  {
    LookupIncluded(p, q);
    LookupIncluded(q, p);
  }

  /** Lists of the same pairs, in whatever order, sort alike. */
  lemma SamePairsSortAlike(p: Table, q: Table)
    requires DistinctPairs(p) && DistinctPairs(q)
    requires forall i :: 0 <= i < |p| ==> p[i] in q
    requires forall j :: 0 <= j < |q| ==> q[j] in p
    ensures SortPairs(p) == SortPairs(q)
  {
    SortedMap(p);
    SortedMap(q);
    SamePairsSameMap(p, q);
    SortedTablesAgree(SortPairs(p), SortPairs(q));
  }

  lemma {:induction false} PairsAre(leaves: Leaves, fields: seq<Field>)
    ensures |Pairs(leaves, fields)| == |fields|
    ensures forall k :: 0 <= k < |fields| ==>
              Pairs(leaves, fields)[k] == (fields[k].key, Encode(leaves, fields[k].value))
  {
    if fields != [] {
      var front := fields[..|fields| - 1];
      PairsAre(leaves, front);
      forall k | 0 <= k < |fields|
        ensures Pairs(leaves, fields)[k] == (fields[k].key, Encode(leaves, fields[k].value))
      {
        if k < |front| { assert front[k] == fields[k]; }
      }
    }
  }

  /** Values that differ only in the order of keys have one canonical encoding. */
  lemma {:induction false} SameEncodesAlike(leaves: Leaves, a: Json, b: Json)
    requires Same(leaves, a, b)
    ensures Encode(leaves, a) == Encode(leaves, b)
    ensures Encodable(leaves, a) <==> Encodable(leaves, b)
    decreases a, 1
  {
    match a
    case JArr(xs) =>
      var ys := b.items;
      forall k | 0 <= k < |xs|
        ensures Encode(leaves, xs[k]) == Encode(leaves, ys[k])
        ensures Encodable(leaves, xs[k]) <==> Encodable(leaves, ys[k])
      {
        SameEncodesAlike(leaves, xs[k], ys[k]);
      }
      ItemsAlike(leaves, xs, ys);
    case JObj(fs) =>
      var gs := b.fields;
      forall i, j | 0 <= i < |fs| && 0 <= j < |gs| && fs[i].key == gs[j].key
        ensures FieldsAlike(leaves, fs[i], gs[j])
      {
        SameEncodesAlike(leaves, fs[i].value, gs[j].value);
      }
      TablesAlike(leaves, fs, gs);
    case _ =>
  }

  predicate FieldsAlike(leaves: Leaves, f: Field, g: Field) {
    Encode(leaves, f.value) == Encode(leaves, g.value) && (Encodable(leaves, f.value) <==> Encodable(leaves, g.value))
  }

  lemma {:induction false} ItemsAlike(leaves: Leaves, xs: seq<Json>, ys: seq<Json>)
    requires |xs| == |ys| && forall k :: 0 <= k < |xs| ==> Encode(leaves, xs[k]) == Encode(leaves, ys[k])
    ensures EncodeItems(leaves, xs) == EncodeItems(leaves, ys)
  {
    if xs != [] {
      var n := |xs| - 1;
      forall k | 0 <= k < n ensures Encode(leaves, xs[..n][k]) == Encode(leaves, ys[..n][k]) {
        assert xs[..n][k] == xs[k] && ys[..n][k] == ys[k];
      }
      ItemsAlike(leaves, xs[..n], ys[..n]);
      assert Encode(leaves, xs[n]) == Encode(leaves, ys[n]);
    }
  }

  lemma TablesAlike(leaves: Leaves, fs: seq<Field>, gs: seq<Field>)
    requires DistinctKeys(fs) && DistinctKeys(gs) && Keys(fs) == Keys(gs)
    requires forall i, j :: 0 <= i < |fs| && 0 <= j < |gs| && fs[i].key == gs[j].key ==>
               FieldsAlike(leaves, fs[i], gs[j])
    ensures SortPairs(Pairs(leaves, fs)) == SortPairs(Pairs(leaves, gs))
    ensures Encodable(leaves, JObj(fs)) <==> Encodable(leaves, JObj(gs))
  {
    PairsAre(leaves, fs);
    PairsAre(leaves, gs);
    PairedField(leaves, fs, gs);
    assert Keys(gs) == Keys(fs);
    PairedField(leaves, gs, fs);
    SamePairsSortAlike(Pairs(leaves, fs), Pairs(leaves, gs));
  }

  /** Each field of fs has its like in gs. */
  lemma PairedField(leaves: Leaves, fs: seq<Field>, gs: seq<Field>)
    requires Keys(fs) == Keys(gs) && |Pairs(leaves, gs)| == |gs| && |Pairs(leaves, fs)| == |fs|
    requires forall k :: 0 <= k < |fs| ==> Pairs(leaves, fs)[k] == (fs[k].key, Encode(leaves, fs[k].value))
    requires forall k :: 0 <= k < |gs| ==> Pairs(leaves, gs)[k] == (gs[k].key, Encode(leaves, gs[k].value))
    requires forall i, j :: 0 <= i < |fs| && 0 <= j < |gs| && fs[i].key == gs[j].key ==>
               FieldsAlike(leaves, fs[i], gs[j])
    ensures forall i :: 0 <= i < |fs| ==> Pairs(leaves, fs)[i] in Pairs(leaves, gs)
    ensures Encodable(leaves, JObj(gs)) ==> Encodable(leaves, JObj(fs))
  {
    forall i | 0 <= i < |fs|
      ensures Pairs(leaves, fs)[i] in Pairs(leaves, gs)
      ensures Encodable(leaves, JObj(gs)) ==> Encodable(leaves, fs[i].value)
    {
      assert fs[i].key in Keys(gs);
      var j :| 0 <= j < |gs| && gs[j].key == fs[i].key;
      assert FieldsAlike(leaves, fs[i], gs[j]);
      assert Pairs(leaves, gs)[j] == Pairs(leaves, fs)[i];
    }
  }

  // ---------- What is the same up to key order ----------

  /** No object in it repeats a key. */
  predicate Proper(v: Json) {
    match v
    case JArr(items) => forall k :: 0 <= k < |items| ==> Proper(items[k])
    case JObj(fields) => DistinctKeys(fields) && forall k :: 0 <= k < |fields| ==> Proper(fields[k].value)
    case _ => true
  }

  lemma {:induction false} SameAsItself(leaves: Leaves, v: Json)
    requires Proper(v)
    ensures Same(leaves, v, v)
  {
    match v
    case JArr(items) =>
      forall k | 0 <= k < |items| ensures Same(leaves, items[k], items[k]) { SameAsItself(leaves, items[k]); }
    case JObj(fields) =>
      forall i, j | 0 <= i < |fields| && 0 <= j < |fields| && fields[i].key == fields[j].key
        ensures Same(leaves, fields[i].value, fields[j].value)
      {
        assert i == j;
        SameAsItself(leaves, fields[i].value);
      }
    case _ =>
  }

  lemma KeysWithin(fs: seq<Field>, gs: seq<Field>)
    requires forall f: Field :: f in fs ==> f in gs
    ensures Keys(fs) <= Keys(gs)
  {
    forall key | key in Keys(fs) ensures key in Keys(gs) {
      var k :| 0 <= k < |fs| && fs[k].key == key;
      assert fs[k] in gs;
      var j :| 0 <= j < |gs| && gs[j] == fs[k];
    }
  }

  /** An object is the same with its fields in any other order. */
  lemma PermutedIsSame(leaves: Leaves, fs: seq<Field>, gs: seq<Field>)
    requires Proper(JObj(fs)) && DistinctKeys(gs) && multiset(fs) == multiset(gs)
    ensures Same(leaves, JObj(fs), JObj(gs))
  {
    forall f: Field ensures f in fs <==> f in gs { assert f in multiset(fs) <==> f in multiset(gs); }
    KeysWithin(fs, gs);
    KeysWithin(gs, fs);
    forall i, j | 0 <= i < |fs| && 0 <= j < |gs| && fs[i].key == gs[j].key
      ensures Same(leaves, fs[i].value, gs[j].value)
    {
      assert gs[j] in fs;
      var k :| 0 <= k < |fs| && fs[k] == gs[j];
      assert k == i;
      SameAsItself(leaves, fs[i].value);
    }
  }

  /** And with the fields of what is in it in any other order. */
  lemma SameWithin(leaves: Leaves, fs: seq<Field>, gs: seq<Field>, xs: seq<Json>, ys: seq<Json>)
    requires DistinctKeys(fs) && |fs| == |gs|
    requires forall k :: 0 <= k < |fs| ==> fs[k].key == gs[k].key && Same(leaves, fs[k].value, gs[k].value)
    requires |xs| == |ys| && forall k :: 0 <= k < |xs| ==> Same(leaves, xs[k], ys[k])
    ensures Same(leaves, JObj(fs), JObj(gs)) && Same(leaves, JArr(xs), JArr(ys))
  {
    forall i, j | 0 <= i < j < |gs| ensures gs[i].key != gs[j].key { assert fs[i].key != fs[j].key; }
    forall key ensures key in Keys(fs) <==> key in Keys(gs) {
      if k :| 0 <= k < |fs| && fs[k].key == key { assert gs[k].key == key; }
      if k :| 0 <= k < |gs| && gs[k].key == key { assert fs[k].key == key; }
    }
    forall i, j | 0 <= i < |fs| && 0 <= j < |gs| && fs[i].key == gs[j].key
      ensures Same(leaves, fs[i].value, gs[j].value)
    {
      assert fs[j].key == fs[i].key;
      assert i == j;
    }
  }

  // ---------- The key ----------

  /** One element of the messages array: its value and its bytes as received. */
  datatype Raw = Raw(value: Json, bytes: Bytes)

  /** What a message contributes: its canonical bytes, or the raw ones when it does
      not parse. */
  function Canonical(leaves: Leaves, m: Raw): Bytes {
    if Encodable(leaves, m.value) then Encode(leaves, m.value) else m.bytes
  }

  function Opening(leaves: Leaves, messages: seq<Raw>): Bytes {
    if messages == [] then []
    else if |messages| == 1 then Canonical(leaves, messages[0])
    else Canonical(leaves, messages[0]) + Canonical(leaves, messages[1])
  }

  const DIGITS: string := "0123456789abcdef"

  function Hex(n: nat): (s: string)
    ensures s != ""
  {
    if n < 16 then [DIGITS[n]] else Hex(n / 16) + [DIGITS[n % 16]]
  }

  function HexDigit(c: char): int { if '0' <= c <= '9' then c as int - '0' as int else c as int - 'a' as int + 10 }

  function HexValue(s: string): int {
    if s == "" then 0 else 16 * HexValue(s[..|s| - 1]) + HexDigit(s[|s| - 1])
  }

  lemma DigitReads(n: nat)
    requires n < 16
    ensures HexDigit(DIGITS[n]) == n && IsHexDigit(DIGITS[n]) && (n > 0 ==> DIGITS[n] != '0')
  {
  }

  predicate IsHexDigit(c: char) { '0' <= c <= '9' || 'a' <= c <= 'f' }

  lemma ValueSnoc(s: string, c: char)
    ensures HexValue(s + [c]) == 16 * HexValue(s) + HexDigit(c)
  {
    assert (s + [c])[..|s|] == s;
  }

  /** The text reads back as the number and has no leading zero, so different hashes
      give different keys. */
  lemma {:induction false} HexRoundTrip(n: nat)
    ensures HexValue(Hex(n)) == n
    ensures n > 0 ==> Hex(n)[0] != '0'
    ensures forall k :: 0 <= k < |Hex(n)| ==> IsHexDigit(Hex(n)[k])
  {
    DigitReads(n % 16);
    if n < 16 {
      assert Hex(n) == "" + [DIGITS[n]];
      ValueSnoc("", DIGITS[n]);
    } else {
      HexRoundTrip(n / 16);
      ValueSnoc(Hex(n / 16), DIGITS[n % 16]);
    }
  }

  function KeyOf(leaves: Leaves, sessionId: string, messages: seq<Raw>): string {
    if sessionId != "" then sessionId
    else if messages == [] then ""
    else Hex(Fnv64(OFFSET64, Opening(leaves, messages)))
  }

  /** affinityKey: the opening messages are written to the hash one by one; the key is
      that of one write of them all. */
  method AffinityKey(leaves: Leaves, sessionId: string, messages: seq<Raw>) returns (key: string)
    ensures key == KeyOf(leaves, sessionId, messages)
    ensures key == "" <==> sessionId == "" && messages == []
    ensures sessionId != "" ==> key == sessionId
    ensures sessionId == "" && |messages| == 1 ==>
              key == Hex(Fnv64(0xcbf29ce484222325, Canonical(leaves, messages[0])))
    ensures sessionId == "" && |messages| >= 2 ==>
              key == Hex(Fnv64(0xcbf29ce484222325, Canonical(leaves, messages[0]) + Canonical(leaves, messages[1])))
  {
    if sessionId != "" {
      return sessionId;
    }
    if messages == [] {
      return "";
    }
    var h: nat := OFFSET64;
    ghost var written: Bytes := [];
    for i := 0 to |messages|
      invariant h == Fnv64(OFFSET64, written)
      invariant i == 0 ==> written == []
      invariant i == 1 ==> written == Canonical(leaves, messages[0])
      invariant i >= 2 ==> written == Canonical(leaves, messages[0]) + Canonical(leaves, messages[1])
    {
      if i >= 2 {
        break;
      }
      var chunk := Canonical(leaves, messages[i]);
      WritesConcatenate(OFFSET64, written, chunk);
      h := Write64(h, chunk);
      written := written + chunk;
    }
    assert written == Opening(leaves, messages);
    key := Hex(h);
  }

  /** A pool size whose truncation to 32 bits can be divided by. */
  predicate Divides(size: nat) { size <= 1 || size % 0x1_0000_0000 != 0 }

  lemma Quotient(h: nat, m: nat)
    requires m > 0
    ensures h == (h / m) * m + h % m
  {
  }

  function Residue(h: nat, m: nat): (r: nat)
    requires m > 0
    ensures r < m && exists q: nat :: h == q * m + r
  {
    Quotient(h, m);
    h % m
  }

  /** slotFor: the hash modulo the size, both as 32-bit numbers. */
  function SlotFor(utf8: string -> Bytes, key: string, size: nat): (slot: nat)
    requires Divides(size)
    ensures size <= 1 ==> slot == 0
    ensures size >= 2 ==>
              && slot < size && slot < size % 0x1_0000_0000
              && exists q: nat :: Fnv32(OFFSET32, utf8(key)) == q * (size % 0x1_0000_0000) + slot
  {
    if size <= 1 then 0 else Residue(Fnv32(OFFSET32, utf8(key)), size % 0x1_0000_0000)
  }

  method Slot(utf8: string -> Bytes, key: string, size: nat) returns (slot: nat)
    requires size <= 1 || size % 0x1_0000_0000 != 0
    ensures slot == SlotFor(utf8, key, size)
  {
    if size <= 1 {
      return 0;
    }
    var h := Write32(OFFSET32, utf8(key));
    slot := Residue(h, size % 0x1_0000_0000);
  }

  /** In a pool of two a key goes to the slot given by the parity of one more than the
      sum of its bytes, as offset and prime are odd: so both slots are used. */
  lemma SlotOfTwo(utf8: string -> Bytes, key: string)
    ensures SlotFor(utf8, key, 2) == (1 + ByteSum(utf8(key))) % 2
  {
    Fnv32Parity(OFFSET32, utf8(key));
    SameParity(OFFSET32, 1, ByteSum(utf8(key)));
  }

  /** An opening message that is the same, or the same up to the order of its keys. */
  predicate SameMessage(leaves: Leaves, m: Raw, n: Raw) {
    m == n || (Encodable(leaves, m.value) && Same(leaves, m.value, n.value))
  }

  /** A conversation keeps its key, and so its slot, as turns are appended and as its
      opening two messages come with their keys in another order. */
  lemma KeyIsStable(leaves: Leaves, utf8: string -> Bytes, messages: seq<Raw>, later: seq<Raw>, size: nat)
    requires |messages| >= 2 && |later| >= 2 && Divides(size)
    requires SameMessage(leaves, messages[0], later[0]) && SameMessage(leaves, messages[1], later[1])
    ensures KeyOf(leaves, "", messages) == KeyOf(leaves, "", later)
    ensures SlotFor(utf8, KeyOf(leaves, "", messages), size) == SlotFor(utf8, KeyOf(leaves, "", later), size)
  {
    CanonicalAlike(leaves, messages[0], later[0]);
    CanonicalAlike(leaves, messages[1], later[1]);
  }

  /** A message that does not parse is hashed as received. */
  lemma UnparsedAsReceived(leaves: Leaves, m: Raw, n: Raw)
    requires !Encodable(leaves, m.value) && !Encodable(leaves, n.value)
    ensures Canonical(leaves, m) == Canonical(leaves, n) <==> m.bytes == n.bytes
  {
  }

  lemma CanonicalAlike(leaves: Leaves, m: Raw, n: Raw)
    requires SameMessage(leaves, m, n)
    ensures Canonical(leaves, m) == Canonical(leaves, n)
  {
    if m != n {
      SameEncodesAlike(leaves, m.value, n.value);
    }
  }
}
