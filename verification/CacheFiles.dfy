/** File names and directories of the disk-backed cache (crates/common/src/cache.rs). */
module CacheFiles {
  import opened Wrappers
  import opened Decimals

  const U64 := 0x1_0000_0000_0000_0000

  type Word = n: int | 0 <= n < U64

  type Nibble = n: int | 0 <= n < 16

  /** A 256-bit hash as its 64 hexadecimal digits. */
  type Hash = h: seq<Nibble> | |h| == 64 witness seq(64, i => 0)

  function HexChar(n: Nibble): char {
    if n < 10 then '0' + n as char else 'a' + (n - 10) as char
  }

  /** Accepts both cases, as the hash parser does. */
  function ParseHexChar(c: char): Option<Nibble> {
    if '0' <= c <= '9' then Some((c - '0') as int)
    else if 'a' <= c <= 'f' then Some((c - 'a') as int + 10)
    else if 'A' <= c <= 'F' then Some((c - 'A') as int + 10)
    else None
  }

  function ToHex(h: seq<Nibble>): string {
    if h == [] then "" else [HexChar(h[0])] + ToHex(h[1..])
  }

  function ParseHex(s: string): Option<seq<Nibble>> {
    if s == "" then Some([])
    else var first, rest := ParseHexChar(s[0]), ParseHex(s[1..]);
         if first.Some? && rest.Some? then Some([first.value] + rest.value) else None
  }

  lemma {:induction false} HexRoundTrip(h: seq<Nibble>)
    ensures ParseHex(ToHex(h)) == Some(h)
  {
    if h != [] {
      HexRoundTrip(h[1..]);
      assert ToHex(h)[1..] == ToHex(h[1..]);
      assert ParseHexChar(HexChar(h[0])) == Some(h[0]);
      assert [h[0]] + h[1..] == h;
    }
  }

  /** `format!("{:#x}", hash)` */
  function HashName(h: Hash): string { "0x" + ToHex(h) }

  /** `H256::from_str`: 64 hexadecimal digits, optionally after "0x". */
  function ParseHash(s: string): Option<Hash> {
    var digits := ParseHex(if |s| >= 2 && s[..2] == "0x" then s[2..] else s);
    if digits.Some? && |digits.value| == 64 then Some(digits.value) else None
  }

  lemma {:induction false} HashNameRoundTrip(h: Hash)
    ensures ParseHash(HashName(h)) == Some(h)
  {
    HexRoundTrip(h);
    assert HashName(h)[..2] == "0x" && HashName(h)[2..] == ToHex(h);
  }

  lemma {:induction false} HexDigits(h: seq<Nibble>, i: nat)
    requires i < |h|
    ensures |ToHex(h)| == |h| && ToHex(h)[i] == "0123456789abcdef"[h[i]]
  {
    if i > 0 {
      HexDigits(h[1..], i - 1);
    } else if |h| > 1 {
      HexDigits(h[1..], 0);
    }
  }

  /** A hash's file name is "0x" and its 64 digits in lower case. */
  lemma {:induction false} HashNameShape(h: Hash)
    ensures |HashName(h)| == 66 && HashName(h)[..2] == "0x"
    ensures forall i :: 0 <= i < 64 ==> HashName(h)[2 + i] == "0123456789abcdef"[h[i]]
  {
    forall i | 0 <= i < 64
      ensures |ToHex(h)| == 64 && ToHex(h)[i] == "0123456789abcdef"[h[i]]
    {
      HexDigits(h, i);
    }
    HexDigits(h, 0);
  }

  lemma {:induction false} HashNameInjective(a: Hash, b: Hash)
    ensures HashName(a) == HashName(b) ==> a == b
  {
    HashNameRoundTrip(a);
    HashNameRoundTrip(b);
  }

  /** `format!("{}", number)` */
  function NumberName(n: Word): string { ToDecimal(n) }

  /** `parse::<u64>`: decimal digits, optionally after "+", within 64 bits. */
  function ParseNumber(s: string): Option<Word> {
    var t := if |s| >= 1 && s[0] == '+' then s[1..] else s;
    if t != [] && AllDigits(t) && Value(t) < U64 then Some(Value(t)) else None
  }

  lemma {:induction false} NumberNameRoundTrip(n: Word)
    ensures ParseNumber(NumberName(n)) == Some(n)
  {
    DecimalRoundTrip(n);
    assert IsDigit(NumberName(n)[0]);
  }

  /** Selectors are their own file names. */
  function TextName(s: string): string { s }

  function ParseText(s: string): Option<string> { Some(s) }

  // ---------- Listing and loading a directory ----------

  /** `names` lists the files of a directory once each, in some order. */
  ghost predicate Enumerates<V>(names: seq<string>, files: map<string, V>) {
    && (forall name :: name in names <==> name in files)
    && forall i, j :: 0 <= i < j < |names| ==> names[i] != names[j]
  }

  /** What was read from a directory, and whether reading got to its end. */
  datatype Loaded<K, V> = Loaded(entries: map<K, V>, ok: bool)

  /** Reads the listed files one after the other; stops at the first name that does not parse. */
  function Load<K, V>(files: map<string, V>, parse: string -> Option<K>, names: seq<string>): Loaded<K, V>
    requires forall name :: name in names ==> name in files
  {
    if names == [] then Loaded(map[], true)
    else var n := |names| - 1;
         var front, key := Load(files, parse, names[..n]), parse(names[n]);
         if !front.ok then front
         else if key.None? then front.(ok := false)
         else Loaded(front.entries[key.value := files[names[n]]], true)
  }

  /** The key-to-name correspondence of a directory: every key has a name that parses back to it. */
  ghost predicate RoundTrips<K(!new)>(parse: string -> Option<K>, show: K -> string) {
    forall k :: parse(show(k)) == Some(k)
  }

  /** Memory and directory hold the same entries under corresponding keys and names. */
  ghost predicate Mirrors<K(!new), V>(
    m: map<K, V>, files: map<string, V>, parse: string -> Option<K>, show: K -> string)
  {
    && (forall name :: name in files ==> parse(name).Some? && show(parse(name).value) == name)
    && (forall k :: k in m <==> show(k) in files)
    && (forall k :: k in m ==> m[k] == files[show(k)])
  }

  lemma {:induction false} InsertKeepsMirror<K(!new), V>(
    m: map<K, V>, files: map<string, V>, parse: string -> Option<K>, show: K -> string, k: K, v: V)
    requires RoundTrips(parse, show) && Mirrors(m, files, parse, show)
    ensures Mirrors(m[k := v], files[show(k) := v], parse, show)
  {
    assert forall j :: show(j) == show(k) ==> parse(show(j)) == parse(show(k));
  }

  lemma {:induction false} LoadPrefix<K(!new), V>(
    files: map<string, V>, parse: string -> Option<K>, show: K -> string, names: seq<string>)
    requires RoundTrips(parse, show)
    requires forall name :: name in names ==> name in files && parse(name).Some? && show(parse(name).value) == name
    ensures var m := Load(files, parse, names);
            && m.ok
            && (forall k :: k in m.entries <==> show(k) in names)
            && (forall k :: k in m.entries ==> m.entries[k] == files[show(k)])
  {
    if names != [] {
      var n := |names| - 1;
      LoadPrefix(files, parse, show, names[..n]);
      var front, key := Load(files, parse, names[..n]).entries, parse(names[n]).value;
      assert names == names[..n] + [names[n]];
      assert forall k :: show(k) == show(key) ==> parse(show(k)) == parse(show(key));
      assert Load(files, parse, names) == Loaded(front[key := files[names[n]]], true);
      forall k
        ensures k in front[key := files[names[n]]] <==> show(k) in names
      {
        assert k in front <==> show(k) in names[..n];
      }
    }
  }

  /** Loading a mirrored directory gives the memory back, whatever the listing order. */
  lemma {:induction false} LoadGivesMirror<K(!new), V>(
    m: map<K, V>, files: map<string, V>, parse: string -> Option<K>, show: K -> string, names: seq<string>)
    requires RoundTrips(parse, show) && Mirrors(m, files, parse, show) && Enumerates(names, files)
    ensures Load(files, parse, names) == Loaded(m, true)
  {
    LoadPrefix(files, parse, show, names);
    var r := Load(files, parse, names).entries;
    assert r.Keys == m.Keys;
    assert r == m;
  }

  /** Some listing of a directory ends with any given file. */
  lemma {:induction false} ListingEndingWith<V>(files: map<string, V>, last: string) returns (names: seq<string>)
    requires last in files
    ensures Enumerates(names, files) && names[|names| - 1] == last
  {
    var rest := SomeListing(files.Keys - {last});
    names := rest + [last];
  }

  lemma {:induction false} SomeListing(keys: set<string>) returns (names: seq<string>)
    ensures (forall name :: name in names <==> name in keys)
    ensures forall i, j :: 0 <= i < j < |names| ==> names[i] != names[j]
    decreases |keys|
  {
    if keys == {} {
      names := [];
    } else {
      var k :| k in keys;
      var rest := SomeListing(keys - {k});
      names := rest + [k];
    }
  }
}
