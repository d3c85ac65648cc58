/** Exactly which texts are read as Argon2id hashes: more than the printer writes. */
module HashTexts {
  import opened Collections
  import opened Base64
  import opened Argon2id
  import Decimal

  // --- splitting and cutting -------------------------------------------------------------------------------

  function Join(parts: seq<string>, separator: char): string {
    if parts == [] then ""
    else if |parts| == 1 then parts[0]
    else parts[0] + [separator] + Join(parts[1..], separator)
  }

  lemma {:induction false} SplitJoins(s: string, separator: char)
    ensures var parts := Split(s, separator);
            Join(parts, separator) == s && forall i :: 0 <= i < |parts| ==> separator !in parts[i]
    decreases |s|
  {
    if s != "" {
      var rest := Split(s[1..], separator);
      SplitJoins(s[1..], separator);
      assert s == [s[0]] + s[1..];
      if s[0] == separator {
        var parts := [""] + rest;
        assert parts[1..] == rest;
        assert Join(parts, separator) == "" + [separator] + Join(rest, separator);
      } else {
        var parts := [[s[0]] + rest[0]] + rest[1..];
        if |rest| == 1 {
          assert Join(parts, separator) == [s[0]] + rest[0];
        } else {
          assert parts[1..] == rest[1..];
          assert Join(parts, separator) == ([s[0]] + rest[0]) + [separator] + Join(rest[1..], separator);
          assert Join(rest, separator) == rest[0] + [separator] + Join(rest[1..], separator);
        }
      }
    }
  }

  lemma {:induction false} JoinSplits(parts: seq<string>, separator: char)
    requires parts != [] && forall i :: 0 <= i < |parts| ==> separator !in parts[i]
    ensures Split(Join(parts, separator), separator) == parts
    decreases |parts|
  {
    if |parts| == 1 {
      SplitNone(parts[0], separator);
    } else {
      JoinSplits(parts[1..], separator);
      SplitFirst(parts[0], separator, Join(parts[1..], separator));
    }
  }

  lemma {:induction false} CutJoins(s: string, separator: char)
    ensures match Cut(s, separator)
            case Some(pair) => s == pair.0 + [separator] + pair.1 && separator !in pair.0
            case None => separator !in s
    decreases |s|
  {
    if s != "" && s[0] != separator {
      CutJoins(s[1..], separator);
      assert s == [s[0]] + s[1..];
    } else if s != "" {
      assert s == [s[0]] + s[1..] && s == "" + [separator] + s[1..];
    }
  }

  // --- one field -------------------------------------------------------------------------------------------

  /** The field gives the number to the key, in any number of digits. */
  predicate Gives(field: string, key: char, n: nat) {
    && |field| >= 3 && field[0] == key && field[1] == '=' && Decimal.AllDigits(field[2..])
    && Decimal.Value(field[2..]) == n
  }

  lemma GivesIsRead(field: string, key: char, n: nat)
    requires key != '=' && n <= MAX_UINT32
    ensures Gives(field, key, n) <==>
            Cut(field, '=').Some? && Cut(field, '=').value.0 == [key] && ParseUint32(Cut(field, '=').value.1) == Some(n)
  {
    if Gives(field, key, n) {
      assert field == [key] + "=" + field[2..];
      CutField(key, field[2..]);
    } else if Cut(field, '=').Some? && Cut(field, '=').value.0 == [key] {
      CutJoins(field, '=');
      var value := Cut(field, '=').value.1;
      assert field == [key] + ['='] + value;
      assert field[2..] == value;
    }
  }

  // --- all fields ------------------------------------------------------------------------------------------

  /** Three fields, one for each of the three keys, in any order. */
  predicate GiveAll(fields: seq<string>, m: nat, t: nat, p: nat) {
    |fields| == 3
    && exists i, j, k :: 0 <= i < 3 && 0 <= j < 3 && 0 <= k < 3 && i != j && j != k && i != k
        && Gives(fields[i], 'm', m) && Gives(fields[j], 't', t) && Gives(fields[k], 'p', p)
  }

  /** Reading one more field. */
  lemma FieldsStep(fields: seq<string>)
    requires fields != []
    ensures var last := fields[|fields| - 1];
            Fields(fields) == match Fields(fields[..|fields| - 1])
              case None => None
              case Some(values) =>
                if Cut(last, '=').None? || Cut(last, '=').value.0 in values || ParseUint32(Cut(last, '=').value.1).None?
                then None else Some(values[Cut(last, '=').value.0 := ParseUint32(Cut(last, '=').value.1).value])
  {
  }

  /** What reading the fields found: every key once, in some field, and nothing else. */
  lemma {:induction false} FieldsAreRead(fields: seq<string>)
    requires Fields(fields).Some?
    ensures |Fields(fields).value| == |fields|
    ensures forall key :: key in Fields(fields).value ==>
              exists i :: 0 <= i < |fields| && Reads(fields[i], key, Fields(fields).value[key])
    decreases |fields|
  {
    if fields != [] {
      var before := fields[..|fields| - 1];
      FieldsStep(fields);
      FieldsAreRead(before);
      var values, all := Fields(before).value, Fields(fields).value;
      var pair := Cut(fields[|fields| - 1], '=').value;
      assert all.Keys == values.Keys + {pair.0};
      assert Reads(fields[|fields| - 1], pair.0, all[pair.0]);
      hide Fields, Cut, ParseUint32, Reads;
      forall key | key in all ensures exists i :: 0 <= i < |fields| && Reads(fields[i], key, all[key]) {
        if key != pair.0 {
          var i :| 0 <= i < |before| && Reads(before[i], key, values[key]);
          assert Reads(fields[i], key, all[key]);
        }
      }
    }
  }

  predicate Reads(field: string, key: string, n: nat) {
    Cut(field, '=').Some? && Cut(field, '=').value.0 == key && ParseUint32(Cut(field, '=').value.1) == Some(n)
  }

  lemma ThreeKeys(values: map<string, nat>)
    requires |values| == 3 && "m" in values && "t" in values && "p" in values
    ensures values.Keys == {"m", "t", "p"}
  {
    var keys := {"m", "t", "p"};
    assert "m" != "t" && "t" != "p" && "m" != "p";
    assert |keys| == 3 && keys <= values.Keys;
    assert |values.Keys - keys| == |values.Keys| - |keys|;
    assert values.Keys == keys + (values.Keys - keys);
  }

  lemma ReadGives(field: string, key: char, n: nat)
    requires key != '=' && n <= MAX_UINT32 && Reads(field, [key], n)
    ensures Gives(field, key, n)
  {
    GivesIsRead(field, key, n);
  }

  lemma FieldThere(fields: seq<string>, values: map<string, nat>, key: char, n: nat) returns (i: nat)
    requires Fields(fields) == Some(values) && [key] in values && values[[key]] == n && key != '=' && n <= MAX_UINT32
    ensures i < |fields| && Gives(fields[i], key, n)
  {
    FieldsAreRead(fields);
    hide Fields, Reads, Gives;
    i :| 0 <= i < |fields| && Reads(fields[i], [key], n);
    ReadGives(fields[i], key, n);
  }

  lemma AllThere(fields: seq<string>, i: nat, j: nat, k: nat, m: nat, t: nat, p: nat)
    requires |fields| == 3 && i < 3 && j < 3 && k < 3
    requires Gives(fields[i], 'm', m) && Gives(fields[j], 't', t) && Gives(fields[k], 'p', p)
    ensures GiveAll(fields, m, t, p)
  {
    OneKey(fields[i], 'm', m, 't', t);
    OneKey(fields[j], 't', t, 'p', p);
    OneKey(fields[i], 'm', m, 'p', p);
    hide Gives;
  }

  lemma ReadMeansGiven(fields: seq<string>, values: map<string, nat>, m: nat, t: nat, p: nat)
    requires InRange(m, t, p) && Fields(fields) == Some(values) && |values| == 3
    requires "m" in values && "t" in values && "p" in values
    requires values["m"] == m && values["t"] == t && values["p"] == p
    ensures GiveAll(fields, m, t, p)
  {
    FieldsAreRead(fields);
    hide Fields, Reads, Gives, GiveAll;
    assert "m" == ['m'] && "t" == ['t'] && "p" == ['p'];
    var i := FieldThere(fields, values, 'm', m);
    var j := FieldThere(fields, values, 't', t);
    var k := FieldThere(fields, values, 'p', p);
    AllThere(fields, i, j, k, m, t, p);
  }

  lemma OneKey(field: string, key: char, n: nat, other: char, k: nat)
    requires key != other && Gives(field, key, n)
    ensures !Gives(field, other, k)
  {
  }

  lemma ThreeRead(fields: seq<string>, a: string, x: nat, b: string, y: nat, c: string, z: nat)
    requires |fields| == 3 && Reads(fields[0], a, x) && Reads(fields[1], b, y) && Reads(fields[2], c, z)
    requires a != b && b != c && a != c
    ensures Fields(fields) == Some(map[a := x, b := y, c := z])
  {
    FieldsStep(fields);
    var two := fields[..2];
    FieldsStep(two);
    var one := two[..1];
    FieldsStep(one);
    assert one[..0] == [] && Fields([]) == Some(map[]);
    hide Fields, Cut, ParseUint32;
    assert fields[..|fields| - 1] == two && two[..|two| - 1] == one && one[..|one| - 1] == [];
    assert two[1] == fields[1] && one[0] == fields[0];
  }

  lemma GivenMeansRead(fields: seq<string>, m: nat, t: nat, p: nat)
    requires InRange(m, t, p) && GiveAll(fields, m, t, p)
    ensures Fields(fields) == Some(map["m" := m, "t" := t, "p" := p])
  {
    var i, j, k :| 0 <= i < 3 && 0 <= j < 3 && 0 <= k < 3 && i != j && j != k && i != k
      && Gives(fields[i], 'm', m) && Gives(fields[j], 't', t) && Gives(fields[k], 'p', p);
    GivesIsRead(fields[i], 'm', m);
    GivesIsRead(fields[j], 't', t);
    GivesIsRead(fields[k], 'p', p);
    assert "m" == ['m'] && "t" == ['t'] && "p" == ['p'];
    hide Fields, Gives, Cut, ParseUint32;
    InAnyOrder(fields, i, j, k, m, t, p);
  }

  lemma InAnyOrder(fields: seq<string>, i: nat, j: nat, k: nat, m: nat, t: nat, p: nat)
    requires |fields| == 3 && i < 3 && j < 3 && k < 3 && i != j && j != k && i != k
    requires Reads(fields[i], "m", m) && Reads(fields[j], "t", t) && Reads(fields[k], "p", p)
    ensures Fields(fields) == Some(map["m" := m, "t" := t, "p" := p])
  {
    assert "m" != "t" && "t" != "p" && "m" != "p";
    hide Fields, Reads;
    var all := map["m" := m, "t" := t, "p" := p];
    if i == 0 && j == 1 {
      ThreeRead(fields, "m", m, "t", t, "p", p);
    } else if i == 0 {
      ThreeRead(fields, "m", m, "p", p, "t", t);
      assert all == map["m" := m, "p" := p, "t" := t];
    } else if i == 1 && j == 0 {
      ThreeRead(fields, "t", t, "m", m, "p", p);
      assert all == map["t" := t, "m" := m, "p" := p];
    } else if j == 0 {
      ThreeRead(fields, "t", t, "p", p, "m", m);
      assert all == map["t" := t, "p" := p, "m" := m];
    } else if i == 1 {
      ThreeRead(fields, "p", p, "m", m, "t", t);
      assert all == map["p" := p, "m" := m, "t" := t];
    } else {
      ThreeRead(fields, "p", p, "t", t, "m", m);
      assert all == map["p" := p, "t" := t, "m" := m];
    }
  }

  // --- whole texts -----------------------------------------------------------------------------------------

  /** The text says this: header, three fields in some order, salt and digest with line breaks anywhere. */
  predicate Says(encoded: string, fields: seq<string>, salt: string, digest: string, m: nat, t: nat, p: nat,
                 saltBytes: seq<Byte>, digestBytes: seq<Byte>)
  {
    && GiveAll(fields, m, t, p)
    && encoded == "$argon2id$v=19$" + Join(fields, ',') + "$" + salt + "$" + digest
    && WithoutBreaks(salt) == Encode(saltBytes) && WithoutBreaks(digest) == Encode(digestBytes)
  }

  lemma DecodedExactly(s: string, bytes: seq<Byte>)
    ensures Decode(s) == Some(bytes) <==> WithoutBreaks(s) == Encode(bytes)
  {
    RoundTrip(bytes);
    NoBreaks(Encode(bytes));
    if Decode(s).Some? {
      DecodesOnlyCanonical(WithoutBreaks(s));
    }
  }

  lemma {:induction false} NoSeparator(s: string, separator: char)
    requires separator !in WithoutBreaks(s) && separator != '\n' && separator != '\r'
    ensures separator !in s
    decreases |s|
  {
    if s != "" {
      NoSeparator(s[1..], separator);
      assert s == [s[0]] + s[1..];
    }
  }

  lemma FieldsAreClean(fields: seq<string>, m: nat, t: nat, p: nat)
    requires GiveAll(fields, m, t, p)
    ensures forall i :: 0 <= i < |fields| ==> ',' !in fields[i] && '$' !in fields[i]
  {
    forall i | 0 <= i < |fields| ensures ',' !in fields[i] && '$' !in fields[i] {
      assert exists key, n :: Gives(fields[i], key, n) && key in {'m', 't', 'p'};
      forall k | 0 <= k < |fields[i]| ensures fields[i][k] != ',' && fields[i][k] != '$' {
        if k >= 2 { assert Decimal.IsDigit(fields[i][2..][k - 2]); }
      }
    }
  }

  lemma JoinedHasNo(fields: seq<string>, separator: char, other: char)
    requires |fields| == 3 && other != separator && forall i :: 0 <= i < |fields| ==> other !in fields[i]
    ensures other !in Join(fields, separator)
  {
    assert Join(fields, separator) == fields[0] + [separator] + Join(fields[1..], separator);
    assert fields[1..][1..] == fields[2..] && |fields[2..]| == 1;
    assert Join(fields[1..], separator) == fields[1] + [separator] + fields[2];
  }

  lemma SaidIsRead(encoded: string, fields: seq<string>, salt: string, digest: string, m: nat, t: nat, p: nat,
                   saltBytes: seq<Byte>, digestBytes: seq<Byte>)
    requires Says(encoded, fields, salt, digest, m, t, p, saltBytes, digestBytes)
    requires Admissible(m, t, p, saltBytes, digestBytes)
    ensures Parse(encoded) == Parsed(Parameters(m, t, p, |saltBytes|, |digestBytes|), saltBytes, digestBytes)
  {
    hide Encode, Decode, WithoutBreaks, Fields, Join, GiveAll, Split;
    SplitAsSaid(fields, salt, digest, m, t, p, saltBytes, digestBytes);
    GivenMeansRead(fields, m, t, p);
    DecodedExactly(salt, saltBytes);
    DecodedExactly(digest, digestBytes);
    KeyAsSaid(salt, digest, m, t, p, saltBytes, digestBytes);
    hide ParseKey;
  }

  lemma KeyAsSaid(salt: string, digest: string, m: nat, t: nat, p: nat, saltBytes: seq<Byte>, digestBytes: seq<Byte>)
    requires Admissible(m, t, p, saltBytes, digestBytes)
    requires Decode(salt) == Some(saltBytes) && Decode(digest) == Some(digestBytes)
    ensures ParseKey(map["m" := m, "t" := t, "p" := p], salt, digest)
         == Parsed(Parameters(m, t, p, |saltBytes|, |digestBytes|), saltBytes, digestBytes)
  {
    hide Decode;
  }

  lemma SplitAsSaid(fields: seq<string>, salt: string, digest: string, m: nat, t: nat, p: nat, saltBytes: seq<Byte>,
                    digestBytes: seq<Byte>)
    requires GiveAll(fields, m, t, p)
    requires WithoutBreaks(salt) == Encode(saltBytes) && WithoutBreaks(digest) == Encode(digestBytes)
    ensures Split("$argon2id$v=19$" + Join(fields, ',') + "$" + salt + "$" + digest, '$')
         == ["", "argon2id", "v=19", Join(fields, ','), salt, digest]
    ensures Split(Join(fields, ','), ',') == fields
  {
    hide Encode, WithoutBreaks, Split;
    FieldsAreClean(fields, m, t, p);
    NoDollarIn(salt, saltBytes);
    NoDollarIn(digest, digestBytes);
    JoinedHasNo(fields, ',', '$');
    assert |fields| == 3;
    hide GiveAll, Join;
    JoinSplits(fields, ',');
    SplitSix(Join(fields, ','), salt, digest);
  }

  lemma NoDollarIn(text: string, bytes: seq<Byte>)
    requires WithoutBreaks(text) == Encode(bytes)
    ensures '$' !in text
  {
    assert '$' !in Encode(bytes);
    hide Encode;
    NoSeparator(text, '$');
  }

  lemma SplitSix(f: string, salt: string, digest: string)
    requires '$' !in f && '$' !in salt && '$' !in digest
    ensures Split("$argon2id$v=19$" + f + "$" + salt + "$" + digest, '$') == ["", "argon2id", "v=19", f, salt, digest]
  {
    hide Split;
    SplitLastThree(f, salt, digest);
    SplitHeader(f + "$" + salt + "$" + digest);
    assert "$argon2id$v=19$" + f + "$" + salt + "$" + digest == "$argon2id$v=19$" + (f + "$" + salt + "$" + digest);
  }

  lemma ReadIsSaid(encoded: string)
    requires Parse(encoded).Parsed?
    ensures var x := Parse(encoded);
            && Admissible(x.parameters.memory, x.parameters.iterations, x.parameters.parallelism, x.salt, x.digest)
            && exists fields, salt, digest ::
                 Says(encoded, fields, salt, digest, x.parameters.memory, x.parameters.iterations,
                      x.parameters.parallelism, x.salt, x.digest)
  {
    var parts := Split(encoded, '$');
    var fields := Split(parts[3], ',');
    SplitJoins(encoded, '$');
    SplitJoins(parts[3], ',');
    var values := Fields(fields).value;
    var m, t, p := values["m"], values["t"], values["p"];
    KeysOfRead(values);
    var x := Parse(encoded);
    DecodedExactly(parts[4], x.salt);
    DecodedExactly(parts[5], x.digest);
    hide Split, Encode, Decode, WithoutBreaks, Fields, GiveAll;
    ReadMeansGiven(fields, values, m, t, p);
    JoinedSix(parts);
    assert Says(encoded, fields, parts[4], parts[5], m, t, p, x.salt, x.digest);
  }

  lemma KeysOfRead(values: map<string, nat>)
    requires |values| == 3 && InRange(Lookup(values, "m"), Lookup(values, "t"), Lookup(values, "p"))
    ensures values.Keys == {"m", "t", "p"}
  {
    ThreeKeys(values);
  }

  lemma JoinedSix(parts: seq<string>)
    requires |parts| == 6 && parts[0] == "" && parts[1] == "argon2id" && parts[2] == "v=19"
    ensures Join(parts, '$') == "$argon2id$v=19$" + parts[3] + "$" + parts[4] + "$" + parts[5]
  {
    assert parts == ["", "argon2id", "v=19", parts[3], parts[4], parts[5]];
    var a, b, c, d := parts[1..], parts[2..], parts[3..], parts[4..];
    assert a[1..] == b && b[1..] == c && c[1..] == d && d[1..] == [parts[5]];
    assert Join(d, '$') == parts[4] + "$" + parts[5];
    assert Join(c, '$') == parts[3] + "$" + Join(d, '$');
    assert Join(b, '$') == "v=19" + "$" + Join(c, '$');
    assert Join(a, '$') == "argon2id" + "$" + Join(b, '$');
    assert Join(parts, '$') == "" + "$" + Join(a, '$');
  }

  /** What the program accepts: memory in kibibytes, passes and lanes, and the lengths of salt and digest in bytes. */
  predicate Acceptable(m: nat, t: nat, p: nat, salt: seq<Byte>, digest: seq<Byte>) {
    8 <= m <= 65536 && 1 <= t <= 5 && 1 <= p <= 4 && 8 <= |salt| <= 64 && 16 <= |digest| <= 64
  }

  /**
   * A text is read as these values if and only if the values are in range and the text says so: the fixed header, one
   * field for each key in any order and with any number of leading zeros, then salt and digest in the encoder's only
   * spelling but for line breaks anywhere.
   */
  lemma AcceptsExactly(encoded: string, m: nat, t: nat, p: nat, salt: seq<Byte>, digest: seq<Byte>)
    ensures Parse(encoded) == Parsed(Parameters(m, t, p, |salt|, |digest|), salt, digest)
            <==> Acceptable(m, t, p, salt, digest)
                 && exists fields, saltText, digestText ::
                      Says(encoded, fields, saltText, digestText, m, t, p, salt, digest)
  {
    if Parse(encoded) == Parsed(Parameters(m, t, p, |salt|, |digest|), salt, digest) {
      ReadIsSaid(encoded);
    }
    assert Acceptable(m, t, p, salt, digest) <==> Admissible(m, t, p, salt, digest);
    hide Parse, Says;
    if Admissible(m, t, p, salt, digest) {
      forall fields, saltText, digestText | Says(encoded, fields, saltText, digestText, m, t, p, salt, digest)
        ensures Parse(encoded) == Parsed(Parameters(m, t, p, |salt|, |digest|), salt, digest)
      {
        SaidIsRead(encoded, fields, saltText, digestText, m, t, p, salt, digest);
      }
    }
  }

  /** The text says acceptable values. */
  ghost predicate States(encoded: string, m: nat, t: nat, p: nat, salt: seq<Byte>, digest: seq<Byte>) {
    && Acceptable(m, t, p, salt, digest)
    && exists fields, saltText, digestText :: Says(encoded, fields, saltText, digestText, m, t, p, salt, digest)
  }

  predicate BcryptPrefix(encoded: string) {
    |encoded| >= 4 && encoded[..4] in {"$2a$", "$2b$", "$2y$"}
  }

  /**
   * What verifying a stored text comes to: a bcrypt text is for bcrypt to judge and due for an upgrade if it matches;
   * any other text is unreadable unless it says acceptable values, accepts a password exactly if deriving with those
   * values gives the digest, and is due for an upgrade exactly if they are not the ones new hashes get.
   */
  lemma VerifiesExactly(
    derive: Derivation, bcryptMatches: (string, string) -> bool, encoded: string, password: string)
    ensures var verdict := Verify(derive, bcryptMatches, encoded, password);
            if BcryptPrefix(encoded) then
              verdict == Verdict(bcryptMatches(encoded, password), bcryptMatches(encoded, password))
            else
              && (verdict == Unreadable <==> !exists m, t, p, salt, digest :: States(encoded, m, t, p, salt, digest))
              && forall m, t, p, salt, digest :: States(encoded, m, t, p, salt, digest) ==>
                   verdict == Verdict(derive(password, salt, t, m, p, |digest|) == digest,
                                      !(m == 19456 && t == 2 && p == 1 && |salt| == 16 && |digest| == 32))
  {
    BcryptIsPrefixed(encoded);
    forall m, t, p, salt, digest
      ensures States(encoded, m, t, p, salt, digest) <==>
              Parse(encoded) == Parsed(Parameters(m, t, p, |salt|, |digest|), salt, digest)
    {
      AcceptsExactly(encoded, m, t, p, salt, digest);
    }
    hide States, IsBcrypt, BcryptPrefix;
    ParsedCounts(encoded);
    if Parse(encoded).Parsed? {
      var (x, salt, digest) := (Parse(encoded).parameters, Parse(encoded).salt, Parse(encoded).digest);
      assert States(encoded, x.memory, x.iterations, x.parallelism, salt, digest);
    }
    hide Parse;
  }

  lemma ParsedCounts(encoded: string)
    ensures Parse(encoded).Parsed? ==>
              && Parse(encoded).parameters.saltLength == |Parse(encoded).salt|
              && Parse(encoded).parameters.keyLength == |Parse(encoded).digest|
  {
    hide Split, Fields, Decode;
  }

  lemma BcryptIsPrefixed(encoded: string)
    ensures IsBcrypt(encoded) <==> BcryptPrefix(encoded)
  {
    if |encoded| >= 4 {
      assert encoded[..4] == [encoded[0], encoded[1], encoded[2], encoded[3]];
      var framed := encoded[0] == '$' && encoded[1] == '2' && encoded[3] == '$';
      assert encoded[..4] == "$2a$" <==> framed && encoded[2] == 'a';
      assert encoded[..4] == "$2b$" <==> framed && encoded[2] == 'b';
      assert encoded[..4] == "$2y$" <==> framed && encoded[2] == 'y';
    }
  }
}
