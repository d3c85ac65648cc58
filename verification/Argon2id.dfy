/** Printing, parsing and verifying Argon2id password hashes. The key derivation itself is a parameter. */
module Argon2id {
  import opened Collections
  import opened Base64
  import Decimal

  const MEMORY := 19 * 1024
  const ITERATIONS := 2
  const PARALLELISM := 1
  const SALT_LENGTH := 16
  const KEY_LENGTH := 32
  const MAX_MEMORY := 64 * 1024
  const MAX_TIME := 5
  const MAX_PARALLEL := 4
  const MAX_UINT32 := 0xffff_ffff

  datatype Parameters = Parameters(memory: nat, iterations: nat, parallelism: nat, saltLength: nat, keyLength: nat)
  datatype Parsed = Parsed(parameters: Parameters, salt: seq<Byte>, digest: seq<Byte>) | InvalidHash

  predicate NeedsUpgrade(p: Parameters) {
    p != Parameters(MEMORY, ITERATIONS, PARALLELISM, SALT_LENGTH, KEY_LENGTH)
  }

  // --- text ------------------------------------------------------------------------------------------------

  function Split(s: string, separator: char): (parts: seq<string>)
    ensures parts != []
  {
    if s == "" then [""]
    else
      var rest := Split(s[1..], separator);
      if s[0] == separator then [""] + rest else [[s[0]] + rest[0]] + rest[1..]
  }

  /** The text before and after the first separator. */
  function Cut(s: string, separator: char): Option<(string, string)> {
    if s == "" then None
    else if s[0] == separator then Some(("", s[1..]))
    else
      match Cut(s[1..], separator)
      case None => None
      case Some(pair) => Some(([s[0]] + pair.0, pair.1))
  }

  /** `strconv.ParseUint(_, 10, 32)`: digits only, at least one, and no more than 32 bits. */
  function ParseUint32(s: string): Option<nat> {
    if s == "" || !Decimal.AllDigits(s) || Decimal.Value(s) > MAX_UINT32 then None else Some(Decimal.Value(s))
  }

  /** The `key=value` pairs, each key at most once. */
  function Fields(pairs: seq<string>): Option<map<string, nat>> {
    if pairs == [] then Some(map[])
    else
      match Fields(pairs[..|pairs| - 1])
      case None => None
      case Some(values) =>
        match Cut(pairs[|pairs| - 1], '=')
        case None => None
        case Some(pair) =>
          if pair.0 in values || ParseUint32(pair.1).None? then None
              else Some(values[pair.0 := ParseUint32(pair.1).value])
  }

  function Lookup(values: map<string, nat>, key: string): nat {
    if key in values then values[key] else 0
  }

  predicate InRange(m: nat, t: nat, p: nat) {
    8 <= m <= MAX_MEMORY && 1 <= t <= MAX_TIME && 1 <= p <= MAX_PARALLEL
  }

  function Parse(encoded: string): Parsed {
    var parts := Split(encoded, '$');
    if |parts| != 6 || parts[0] != "" || parts[1] != "argon2id" || parts[2] != "v=19" then InvalidHash
    else
      match Fields(Split(parts[3], ','))
      case None => InvalidHash
      case Some(values) => ParseKey(values, parts[4], parts[5])
  }

  function ParseKey(values: map<string, nat>, salt: string, digest: string): Parsed {
    var m, t, p := Lookup(values, "m"), Lookup(values, "t"), Lookup(values, "p");
    if |values| != 3 || !InRange(m, t, p) then InvalidHash
    else if Decode(salt).None? || !(8 <= |Decode(salt).value| <= 64) then InvalidHash
    else if Decode(digest).None? || !(16 <= |Decode(digest).value| <= 64) then InvalidHash
    else Parsed(Parameters(m, t, p, |Decode(salt).value|, |Decode(digest).value|), Decode(salt).value,
        Decode(digest).value)
  }

  method ParseArgon2id(encoded: string) returns (result: Parsed)
    ensures result == Parse(encoded)
  {
    var parts := Split(encoded, '$');
    if |parts| != 6 || parts[0] != "" || parts[1] != "argon2id" || parts[2] != "v=19" {
      return InvalidHash;
    }
    var values: map<string, nat> := map[];
    var pairs := Split(parts[3], ',');
    for i := 0 to |pairs|
      invariant Fields(pairs[..i]) == Some(values)
      invariant Fields(pairs).Some? ==> Fields(pairs[..i]).Some?
    {
      assert pairs[..i + 1][..i] == pairs[..i] && pairs[..i + 1][i] == pairs[i];
      var pair := Cut(pairs[i], '=');
      var failed := pair.None? || pair.value.0 in values || ParseUint32(pair.value.1).None?;
      if failed {
        assert Fields(pairs[..i + 1]).None?;
        FailureSticks(pairs, i + 1);
        return InvalidHash;
      }
      values := values[pair.value.0 := ParseUint32(pair.value.1).value];
    }
    assert pairs[..|pairs|] == pairs;
    return ParseKey(values, parts[4], parts[5]);
  }

  lemma {:induction false} FailureSticks(pairs: seq<string>, i: nat)
    requires i <= |pairs| && Fields(pairs[..i]).None?
    ensures Fields(pairs).None?
    decreases |pairs| - i
  {
    if i == |pairs| {
      assert pairs[..i] == pairs;
    } else {
      assert pairs[..i + 1][..i] == pairs[..i];
      FailureSticks(pairs, i + 1);
    }
  }

  function Print(m: nat, t: nat, p: nat, salt: seq<Byte>, digest: seq<Byte>): string {
    "$argon2id$v=19$" + PrintFields(m, t, p) + "$" + Encode(salt) + "$" + Encode(digest)
  }

  function PrintFields(m: nat, t: nat, p: nat): string {
    "m=" + Decimal.Print(m) + "," + "t=" + Decimal.Print(t) + "," + "p=" + Decimal.Print(p)
  }

  // --- the round trip --------------------------------------------------------------------------------------

  lemma {:induction false} SplitNone(s: string, separator: char)
    requires separator !in s
    ensures Split(s, separator) == [s]
    decreases |s|
  {
    if s != "" {
      SplitNone(s[1..], separator);
      assert [s[0]] + s[1..] == s;
    }
  }

  lemma {:induction false} SplitFirst(s: string, separator: char, rest: string)
    requires separator !in s
    ensures Split(s + [separator] + rest, separator) == [s] + Split(rest, separator)
    decreases |s|
  {
    var all := s + [separator] + rest;
    if s == "" {
      assert all[1..] == rest;
    } else {
      assert all[1..] == s[1..] + [separator] + rest;
      SplitFirst(s[1..], separator, rest);
      assert [s[0]] + s[1..] == s;
      assert ([s[1..]] + Split(rest, separator))[1..] == Split(rest, separator);
    }
  }

  lemma CutField(key: char, value: string)
    requires key != '='
    ensures Cut([key] + "=" + value, '=') == Some(([key], value))
  {
    var s := [key] + "=" + value;
    assert s[1..] == "=" + value;
    assert ("=" + value)[1..] == value;
    assert Cut("=" + value, '=') == Some(("", value));
    assert [key] + "" == [key];
  }

  lemma PrintedNumber(n: nat)
    ensures ParseUint32(Decimal.Print(n)) == if n <= MAX_UINT32 then Some(n) else None
  {
    Decimal.PrintValue(n);
  }

  lemma PairsOfFields(m: nat, t: nat, p: nat)
    ensures Split(PrintFields(m, t, p), ',')
              == ["m=" + Decimal.Print(m), "t=" + Decimal.Print(t), "p=" + Decimal.Print(p)]
  {
    var a, b, c := "m=" + Decimal.Print(m), "t=" + Decimal.Print(t), "p=" + Decimal.Print(p);
    assert ',' !in a && ',' !in b && ',' !in c;
    assert PrintFields(m, t, p) == a + [','] + (b + [','] + c);
    SplitFirst(a, ',', b + [','] + c);
    SplitFirst(b, ',', c);
    SplitNone(c, ',');
  }

  lemma OneMoreField(pairs: seq<string>, key: char, n: nat)
    requires key != '='
    ensures Fields(pairs + [[key] + "=" + Decimal.Print(n)])
         == match Fields(pairs)
            case None => None
            case Some(values) => if [key] in values || n > MAX_UINT32 then None else Some(values[[key] := n])
  {
    var pair := [key] + "=" + Decimal.Print(n);
    PrintedNumber(n);
    CutField(key, Decimal.Print(n));
    hide ParseUint32, Cut, Decimal.Print;
    assert (pairs + [pair])[..|pairs|] == pairs;
  }

  /** The printed fields are read back, unless a number exceeds 32 bits. */
  lemma FieldsOfPrint(m: nat, t: nat, p: nat)
    ensures Fields(Split(PrintFields(m, t, p), ','))
         == if m <= MAX_UINT32 && t <= MAX_UINT32 && p <= MAX_UINT32 then Some(map["m" := m, "t" := t, "p" := p])
             else None
  {
    PairsOfFields(m, t, p);
    hide Split, PrintFields;
    var a, b, c := "m=" + Decimal.Print(m), "t=" + Decimal.Print(t), "p=" + Decimal.Print(p);
    assert a == ['m'] + "=" + Decimal.Print(m) && b == ['t'] + "=" + Decimal.Print(t)
        && c == ['p'] + "=" + Decimal.Print(p);
    OneMoreField([], 'm', m);
    OneMoreField([a], 't', t);
    OneMoreField([a, b], 'p', p);
    assert Fields([]) == Some(map[]);
    hide Fields;
    assert [] + [a] == [a] && [a] + [b] == [a, b] && [a, b] + [c] == [a, b, c];
  }

  lemma NoDollar(m: nat, t: nat, p: nat)
    ensures '$' !in PrintFields(m, t, p)
  {
    hide Decimal.Print;
  }

  lemma SplitLastThree(f: string, s: string, d: string)
    requires '$' !in f && '$' !in s && '$' !in d
    ensures Split(f + "$" + s + "$" + d, '$') == [f, s, d]
  {
    assert f + "$" + s + "$" + d == f + ['$'] + (s + ['$'] + d);
    SplitFirst(f, '$', s + ['$'] + d);
    SplitFirst(s, '$', d);
    SplitNone(d, '$');
  }

  lemma SplitHeader(tail: string)
    ensures Split("$argon2id$v=19$" + tail, '$') == ["", "argon2id", "v=19"] + Split(tail, '$')
  {
    assert "$argon2id$v=19$" + tail == "" + ['$'] + ("argon2id" + ['$'] + ("v=19" + ['$'] + tail));
    SplitFirst("", '$', "argon2id" + ['$'] + ("v=19" + ['$'] + tail));
    SplitFirst("argon2id", '$', "v=19" + ['$'] + tail);
    SplitFirst("v=19", '$', tail);
  }

  lemma PartsOfPrint(m: nat, t: nat, p: nat, salt: seq<Byte>, digest: seq<Byte>)
    ensures Split(Print(m, t, p, salt, digest), '$')
         == ["", "argon2id", "v=19", PrintFields(m, t, p), Encode(salt), Encode(digest)]
  {
    var f, s, d := PrintFields(m, t, p), Encode(salt), Encode(digest);
    assert '$' !in s && '$' !in d;
    NoDollar(m, t, p);
    hide PrintFields, Encode, Split;
    SplitLastThree(f, s, d);
    SplitHeader(f + "$" + s + "$" + d);
    assert Print(m, t, p, salt, digest) == "$argon2id$v=19$" + (f + "$" + s + "$" + d);
  }

  predicate Admissible(m: nat, t: nat, p: nat, salt: seq<Byte>, digest: seq<Byte>) {
    InRange(m, t, p) && 8 <= |salt| <= 64 && 16 <= |digest| <= 64
  }

  /** Parsing a printed hash gives back exactly what was printed, for every admissible salt, digest and parameters. */
  lemma ParseInvertsPrint(m: nat, t: nat, p: nat, salt: seq<Byte>, digest: seq<Byte>)
    ensures Parse(Print(m, t, p, salt, digest)).Parsed? <==> Admissible(m, t, p, salt, digest)
    ensures Admissible(m, t, p, salt, digest) ==>
              Parse(Print(m, t, p, salt, digest)) == Parsed(Parameters(m, t, p, |salt|, |digest|), salt, digest)
  {
    hide Split, Fields, Print, PrintFields, ParseKey;
    PartsOfPrint(m, t, p, salt, digest);
    FieldsOfPrint(m, t, p);
    KeyOfPrint(m, t, p, salt, digest);
  }

  lemma KeyOfPrint(m: nat, t: nat, p: nat, salt: seq<Byte>, digest: seq<Byte>)
    ensures ParseKey(map["m" := m, "t" := t, "p" := p], Encode(salt), Encode(digest))
         == if Admissible(m, t, p, salt, digest) then Parsed(Parameters(m, t, p, |salt|, |digest|), salt, digest)
             else InvalidHash
  {
    RoundTrip(salt);
    RoundTrip(digest);
    hide Decode, Encode;
  }

  // --- hashing and verifying -------------------------------------------------------------------------------

  /** Password, salt, iterations, memory, parallelism, key length. */
  type Derivation = (string, seq<Byte>, nat, nat, nat, nat) -> seq<Byte>

  predicate IsBcrypt(encoded: string) {
    |encoded| >= 4 && encoded[0] == '$' && encoded[1] == '2' && encoded[2] in {'a', 'b', 'y'} && encoded[3] == '$'
  }

  function Hash(derive: Derivation, salt: seq<Byte>, password: string): string {
    Print(MEMORY, ITERATIONS, PARALLELISM, salt, derive(password, salt, ITERATIONS, MEMORY, PARALLELISM, KEY_LENGTH))
  }

  datatype Verdict = Verdict(valid: bool, upgrade: bool) | Unreadable

  function Verify(
    derive: Derivation, bcryptMatches: (string, string) -> bool, encoded: string, password: string): Verdict {
    if IsBcrypt(encoded) then Verdict(bcryptMatches(encoded, password), bcryptMatches(encoded, password))
    else
      match Parse(encoded)
      case InvalidHash => Unreadable
      case Parsed(x, salt, digest) =>
        Verdict(derive(password, salt, x.iterations, x.memory, x.parallelism, |digest|) == digest, NeedsUpgrade(x))
  }

  lemma PrintedIsNotBcrypt(m: nat, t: nat, p: nat, salt: seq<Byte>, digest: seq<Byte>)
    ensures !IsBcrypt(Print(m, t, p, salt, digest))
  {
    hide PrintFields, Encode;
    assert Print(m, t, p, salt, digest)[1] == 'a';
  }

  /**
   * A fresh hash is readable and up to date, accepts its password, and accepts exactly the passwords with the same
   * key.
   */
  lemma FreshHashVerifies(
    derive: Derivation, bcryptMatches: (string, string) -> bool, salt: seq<Byte>, password: string, attempt: string)
    requires |salt| == SALT_LENGTH
    requires |derive(password, salt, ITERATIONS, MEMORY, PARALLELISM, KEY_LENGTH)| == KEY_LENGTH
    ensures Verify(derive, bcryptMatches, Hash(derive, salt, password), password) == Verdict(true, false)
    ensures Verify(derive, bcryptMatches, Hash(derive, salt, password), attempt)
         == Verdict(derive(attempt, salt, ITERATIONS, MEMORY, PARALLELISM, KEY_LENGTH)
                    == derive(password, salt, ITERATIONS, MEMORY, PARALLELISM, KEY_LENGTH), false)
  {
    var digest := derive(password, salt, ITERATIONS, MEMORY, PARALLELISM, KEY_LENGTH);
    ParseInvertsPrint(MEMORY, ITERATIONS, PARALLELISM, salt, digest);
    PrintedIsNotBcrypt(MEMORY, ITERATIONS, PARALLELISM, salt, digest);
    hide Parse, Print, IsBcrypt;
  }

  // --- what else the parser reads --------------------------------------------------------------------------

  lemma {:induction false} SplitAppended(s: string, separator: char, c: char)
    requires c != separator
    ensures var parts := Split(s, separator);
            Split(s + [c], separator) == parts[|parts| - 1 := parts[|parts| - 1] + [c]]
    decreases |s|
  {
    if s != "" {
      assert (s + [c])[1..] == s[1..] + [c];
      SplitAppended(s[1..], separator, c);
      var rest := Split(s[1..], separator);
      var longer := rest[|rest| - 1 := rest[|rest| - 1] + [c]];
      if |rest| == 1 {
        assert [s[0]] + (rest[0] + [c]) == [s[0]] + rest[0] + [c];
      }
    } else {
      assert [c][1..] == "";
      assert s + [c] == [c];
      assert Split("", separator) == [""];
      assert [c] + "" == "" + [c];
    }
  }

  /** Printing is not the only way to write a hash: a line break at the end is read as if it were not there. */
  lemma TrailingBreakIsRead(encoded: string)
    requires Parse(encoded).Parsed?
    ensures Parse(encoded + "\n") == Parse(encoded)
  {
    SplitAppended(encoded, '$', '\n');
    var parts := Split(encoded, '$');
    BreaksVanish(parts[5], "\n");
    assert WithoutBreaks("\n") == "" by { assert "\n"[1..] == ""; }
    assert WithoutBreaks(parts[5] + "\n") == WithoutBreaks(parts[5]);
    hide Split, Fields;
  }

  lemma FreshFields()
    ensures PrintFields(19456, 2, 1) == "m=19456,t=2,p=1"
  {
    assert Decimal.Print(1) == "1" && Decimal.Print(2) == "2" && Decimal.Print(19) == "19";
    assert Decimal.Print(194) == "194";
    assert Decimal.Print(1945) == "1945";
    assert Decimal.Print(19456) == "19456";
    hide Decimal.Print;
    assert "m=" + "19456" + "," + "t=" + "2" + "," + "p=" + "1" == "m=19456,t=2,p=1";
  }

  /** With the parameters of a fresh hash the text begins as the standard encoding of Argon2 hashes does. */
  lemma FreshHashText(salt: seq<Byte>, digest: seq<Byte>)
    ensures Print(MEMORY, ITERATIONS, PARALLELISM, salt, digest)
         == "$argon2id$v=19$m=19456,t=2,p=1$" + Encode(salt) + "$" + Encode(digest)
  {
    hide Encode;
    FreshFields();
    assert "$argon2id$v=19$" + "m=19456,t=2,p=1" + "$" == "$argon2id$v=19$m=19456,t=2,p=1$";
  }
}
