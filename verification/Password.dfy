/**
 Printing and checking password hashes. The key derivation is a parameter `derive`: password, salt,
 iterations, memory, parallelism and key length to key.
 */
module Password {
  import opened Wrappers
  import opened Decimal
  import opened Base64

  const VERSION := 19
  const MEMORY := 65536
  const ITERATIONS := 3
  const PARALLELISM := 2
  const KEY_LENGTH := 32
  const SALT_LENGTH := 16
  const MIN_PASSWORD := 12
  const MAX_PASSWORD := 128

  type Derivation = (seq<Byte>, seq<Byte>, nat, nat, nat, nat) -> seq<Byte>

  /** `Crash` is the panic of the key derivation when it is asked for no iteration or no lane. */
  datatype Comparison = Match | NoMatch | Crash

  datatype Parsed = Parsed(version: int, memory: nat, iterations: nat, parallelism: nat, salt: seq<Byte>,
                           hash: seq<Byte>)

  /** Go counts bytes. */
  predicate PasswordFits(password: seq<Byte>) {
    MIN_PASSWORD <= |password| <= MAX_PASSWORD
  }

  // ----- splitting on '$' -----

  function Split(s: string, separator: char): (parts: seq<string>)
    ensures |parts| > 0
  {
    if |s| == 0 then [""]
    else
      var rest := Split(s[1..], separator);
      if s[0] == separator then [""] + rest else [[s[0]] + rest[0]] + rest[1..]
  }

  function Join(parts: seq<string>, separator: char): string
    requires |parts| > 0
  {
    if |parts| == 1 then parts[0] else parts[0] + [separator] + Join(parts[1..], separator)
  }

  lemma {:induction false} SplitFirst(part: string, rest: string, separator: char)
    requires separator !in part
    ensures Split(part + [separator] + rest, separator) == [part] + Split(rest, separator)
  {
    var all := part + [separator] + rest;
    if |part| == 0 {
      assert all[1..] == rest;
    } else {
      SplitFirst(part[1..], rest, separator);
      assert all[1..] == part[1..] + [separator] + rest;
      assert [part[0]] + part[1..] == part;
    }
  }

  lemma {:induction false} SplitSingle(part: string, separator: char)
    requires separator !in part
    ensures Split(part, separator) == [part]
  {
    if |part| > 0 {
      SplitSingle(part[1..], separator);
      assert [part[0]] + part[1..] == part;
    }
  }

  lemma {:induction false} SplitJoined(parts: seq<string>, separator: char)
    requires |parts| > 0 && forall p :: p in parts ==> separator !in p
    ensures Split(Join(parts, separator), separator) == parts
  {
    if |parts| == 1 {
      SplitSingle(parts[0], separator);
    } else {
      SplitJoined(parts[1..], separator);
      SplitFirst(parts[0], Join(parts[1..], separator), separator);
      assert parts == [parts[0]] + parts[1..];
    }
  }

  // ----- printing and parsing the encoding -----

  function Fields(p: Parsed): seq<string>
    requires p.version >= 0
  {
    ["", "argon2id", "v=" + Print(p.version),
     "m=" + Print(p.memory) + ",t=" + Print(p.iterations) + ",p=" + Print(p.parallelism),
     Encode(p.salt), Encode(p.hash)]
  }

  function Printed(p: Parsed): string
    requires p.version >= 0
  {
    var version := "v=" + Print(p.version);
    var parameters := "m=" + Print(p.memory) + ",t=" + Print(p.iterations) + ",p=" + Print(p.parallelism);
    "$argon2id$" + version + "$" + parameters + "$" + Encode(p.salt) + "$" + Encode(p.hash)
  }

  /** Sscanf with "v=%d" into an int; text after the number is not looked at. */
  function ParseVersion(s: string): Option<int> {
    match Skip(s, "v=")
    case None => None
    case Some(rest) =>
      match ScanInt(rest)
      case Some(found) =>
        if -0x8000_0000_0000_0000 <= found.value < 0x8000_0000_0000_0000 then Some(found.value) else None
      case None => None
  }

  /** One "name=%d" of the parameters, into an unsigned number below `bound`. */
  function ParseParameter(s: string, name: string, bound: nat): (found: Option<Scanned>)
    ensures found.Some? ==> 0 <= found.value.value < bound
  {
    match Skip(s, name)
    case None => None
    case Some(rest) =>
      match ScanNat(rest)
      case Some(found) => if found.value < bound then Some(found) else None
      case None => None
  }

  /** Sscanf with "m=%d,t=%d,p=%d" into two uint32 and a uint8. */
  function ParseParameters(s: string): Option<(nat, nat, nat)> {
    match ParseParameter(s, "m=", 0x1_0000_0000)
    case None => None
    case Some(m) =>
      match ParseParameter(m.rest, ",t=", 0x1_0000_0000)
      case None => None
      case Some(t) =>
        match ParseParameter(t.rest, ",p=", 256)
        case None => None
        case Some(p) => Some((m.value, t.value, p.value))
  }

  function Parse(encoded: string): Option<Parsed> {
    var parts := Split(encoded, '$');
    if |parts| != 6 || parts[1] != "argon2id" then None
    else
      match (ParseVersion(parts[2]), ParseParameters(parts[3]), Decode(parts[4]), Decode(parts[5]))
      case (Some(version), Some((memory, iterations, parallelism)), Some(salt), Some(hash)) =>
        Some(Parsed(version, memory, iterations, parallelism, salt, hash))
      case _ => None
  }

  /** What comparePassword demands of a parsed encoding. */
  predicate Acceptable(p: Parsed) {
    && p.version == VERSION
    && p.memory <= MEMORY * 2 && p.iterations <= 10 && p.parallelism <= 16
    && 8 <= |p.salt| <= 64 && |p.hash| == KEY_LENGTH
  }

  function ComparePassword(encoded: string, password: seq<Byte>, derive: Derivation): Comparison {
    match Parse(encoded)
    case None => NoMatch
    case Some(p) =>
      if !Acceptable(p) then NoMatch
      else if p.iterations < 1 || p.parallelism < 1 then Crash
      else if derive(password, p.salt, p.iterations, p.memory, p.parallelism, KEY_LENGTH) == p.hash then Match
      else NoMatch
  }

  /** None is the refusal of a password of the wrong length. */
  function HashPassword(password: seq<Byte>, salt: seq<Byte>, derive: Derivation): Option<string> {
    if !PasswordFits(password) then None
    else Some(Printed(Parsed(VERSION, MEMORY, ITERATIONS, PARALLELISM, salt,
                             derive(password, salt, ITERATIONS, MEMORY, PARALLELISM, KEY_LENGTH))))
  }

  // ----- the round trip -----

  lemma JoinFour(v: string, q: string, s: string, h: string)
    ensures Join([v, q, s, h], '$') == v + "$" + q + "$" + s + "$" + h
  {
    assert [v, q, s, h][1..] == [q, s, h] && [q, s, h][1..] == [s, h] && [s, h][1..] == [h];
    assert Join([s, h], '$') == s + "$" + h;
    assert Join([q, s, h], '$') == q + "$" + (s + "$" + h);
    assert v + "$" + (q + "$" + (s + "$" + h)) == v + "$" + q + "$" + s + "$" + h;
  }

  lemma JoinSix(v: string, q: string, s: string, h: string)
    ensures Join(["", "argon2id", v, q, s, h], '$') == "$argon2id$" + v + "$" + q + "$" + s + "$" + h
  {
    JoinFour(v, q, s, h);
    var tail := v + "$" + q + "$" + s + "$" + h;
    assert ["", "argon2id", v, q, s, h][1..] == ["argon2id", v, q, s, h];
    assert ["argon2id", v, q, s, h][1..] == [v, q, s, h];
    assert Join(["argon2id", v, q, s, h], '$') == "argon2id" + "$" + tail;
    assert "" + "$" + ("argon2id" + "$" + tail) == "$argon2id$" + tail;
    assert "$argon2id$" + tail == "$argon2id$" + v + "$" + q + "$" + s + "$" + h;
  }

  lemma PrintedIsJoined(p: Parsed)
    requires p.version >= 0
    ensures Printed(p) == Join(Fields(p), '$')
  {
    var f := Fields(p);
    JoinSix(f[2], f[3], f[4], f[5]);
  }

  lemma NoSeparatorInside(p: Parsed)
    requires p.version >= 0
    ensures forall f :: f in Fields(p) ==> '$' !in f
  {
    PrintIsDigits(p.version);
    PrintIsDigits(p.memory);
    PrintIsDigits(p.iterations);
    PrintIsDigits(p.parallelism);
    EncodedAlphabet(p.salt);
    EncodedAlphabet(p.hash);
    assert '$' !in "v=" && '$' !in "m=" && '$' !in ",t=" && '$' !in ",p=";
    var f := Fields(p);
    assert '$' !in f[0] && '$' !in f[1] && '$' !in f[2] && '$' !in f[3] && '$' !in f[4] && '$' !in f[5];
  }

  lemma VersionRoundTrip(version: nat)
    requires version < 0x8000_0000_0000_0000
    ensures ParseVersion("v=" + Print(version)) == Some(version)
  {
    var s := "v=" + Print(version);
    assert s[2..] == Print(version) + "";
    ScanPrinted(version, "");
  }

  lemma ParameterRoundTrip(name: string, n: nat, rest: string, bound: nat)
    requires n < bound && (|rest| == 0 || !Decimal.IsDigit(rest[0]))
    ensures ParseParameter(name + Print(n) + rest, name, bound) == Some(Scanned(n, rest))
  {
    var s := name + Print(n) + rest;
    assert s[..|name|] == name;
    assert s[|name|..] == Print(n) + rest;
    ScanPrinted(n, rest);
  }

  lemma ParametersRoundTrip(m: nat, t: nat, p: nat)
    requires m < 0x1_0000_0000 && t < 0x1_0000_0000 && p < 256
    ensures ParseParameters("m=" + Print(m) + ",t=" + Print(t) + ",p=" + Print(p)) == Some((m, t, p))
  {
    var afterT := ",p=" + Print(p);
    var afterM := ",t=" + Print(t) + afterT;
    assert "m=" + Print(m) + ",t=" + Print(t) + ",p=" + Print(p) == "m=" + Print(m) + afterM;
    assert afterT == ",p=" + Print(p) + "";
    ParameterRoundTrip("m=", m, afterM, 0x1_0000_0000);
    ParameterRoundTrip(",t=", t, afterT, 0x1_0000_0000);
    ParameterRoundTrip(",p=", p, "", 256);
  }

  /** Every encoding parses back to what was printed, for any salt and hash. */
  lemma ParsePrinted(p: Parsed)
    requires 0 <= p.version < 0x8000_0000_0000_0000
    requires p.memory < 0x1_0000_0000 && p.iterations < 0x1_0000_0000 && p.parallelism < 256
    ensures Parse(Printed(p)) == Some(p)
  {
    PrintedIsJoined(p);
    NoSeparatorInside(p);
    SplitJoined(Fields(p), '$');
    VersionRoundTrip(p.version);
    ParametersRoundTrip(p.memory, p.iterations, p.parallelism);
    DecodeEncoded(p.salt);
    DecodeEncoded(p.hash);
  }

  /** A hash made for a password of 12 to 128 bytes accepts exactly the candidates with the same
      derived key, and checking it never crashes. */
  lemma HashComparesByKey(password: seq<Byte>, salt: seq<Byte>, candidate: seq<Byte>, derive: Derivation)
    requires |salt| == SALT_LENGTH
    requires |derive(password, salt, ITERATIONS, MEMORY, PARALLELISM, KEY_LENGTH)| == KEY_LENGTH
    ensures HashPassword(password, salt, derive).Some? <==> PasswordFits(password)
    ensures HashPassword(password, salt, derive).Some? ==>
              var key := derive(password, salt, ITERATIONS, MEMORY, PARALLELISM, KEY_LENGTH);
              var encoded := HashPassword(password, salt, derive).value;
              && Parse(encoded) == Some(Parsed(VERSION, MEMORY, ITERATIONS, PARALLELISM, salt, key))
              && ComparePassword(encoded, candidate, derive)
                 == if derive(candidate, salt, ITERATIONS, MEMORY, PARALLELISM, KEY_LENGTH) == key
                    then Match else NoMatch
  {
    var key := derive(password, salt, ITERATIONS, MEMORY, PARALLELISM, KEY_LENGTH);
    ParsePrinted(Parsed(VERSION, MEMORY, ITERATIONS, PARALLELISM, salt, key));
  }

  /** What the check does not look at: an encoding within its upper bounds that asks for no iteration
      or no lane. Among printed encodings those, and no others, make it panic. */
  lemma CompareCrashesIff(p: Parsed, password: seq<Byte>, derive: Derivation)
    requires 0 <= p.version < 0x8000_0000_0000_0000
    requires p.memory < 0x1_0000_0000 && p.iterations < 0x1_0000_0000 && p.parallelism < 256
    ensures ComparePassword(Printed(p), password, derive) == Crash <==>
              Acceptable(p) && (p.iterations == 0 || p.parallelism == 0)
  {
    ParsePrinted(p);
  }

  /** One of them: everything as hashPassword prints it, except for the lanes. */
  lemma NoLanesCrash(password: seq<Byte>, derive: Derivation)
    ensures var salt, hash := seq(SALT_LENGTH, _ => 0), seq(KEY_LENGTH, _ => 0);
            ComparePassword(Printed(Parsed(VERSION, MEMORY, ITERATIONS, 0, salt, hash)), password, derive) == Crash
  {
    CompareCrashesIff(Parsed(VERSION, MEMORY, ITERATIONS, 0, seq(SALT_LENGTH, _ => 0), seq(KEY_LENGTH, _ => 0)),
                      password, derive);
  }

  // ----- the same told with the numbers -----

  /** Exactly what a printed encoding must be, and derive to, for a candidate to be accepted. */
  lemma CompareMatchesIff(p: Parsed, candidate: seq<Byte>, derive: Derivation)
    requires 0 <= p.version < 0x8000_0000_0000_0000
    requires p.memory < 0x1_0000_0000 && p.iterations < 0x1_0000_0000 && p.parallelism < 256
    ensures ComparePassword(Printed(p), candidate, derive) == Match <==>
              && p.version == 19 && p.memory <= 131_072 && 1 <= p.iterations <= 10 && 1 <= p.parallelism <= 16
              && 8 <= |p.salt| <= 64 && |p.hash| == 32
              && derive(candidate, p.salt, p.iterations, p.memory, p.parallelism, 32) == p.hash
  {
    ParsePrinted(p);
  }

  /** A hash is made for 12 to 128 bytes, with three iterations over 64 MiB in two lanes, and reads so. */
  lemma HashReads(password: seq<Byte>, salt: seq<Byte>, derive: Derivation)
    ensures HashPassword(password, salt, derive)
            == if 12 <= |password| <= 128
               then Some("$argon2id$v=19$m=65536,t=3,p=2$" + Encode(salt) + "$"
                         + Encode(derive(password, salt, 3, 65536, 2, 32)))
               else None
  {
    var key := derive(password, salt, 3, 65536, 2, 32);
    PrintedNumbers();
    PrintedPrefix();
    var p := Parsed(19, 65536, 3, 2, salt, key);
    assert Printed(p) == "$argon2id$" + "v=19" + "$" + "m=65536,t=3,p=2" + "$" + Encode(salt) + "$" + Encode(key);
  }

  lemma PrintedNumbers()
    ensures "v=" + Print(19) == "v=19"
    ensures "m=" + Print(65536) + ",t=" + Print(3) + ",p=" + Print(2) == "m=65536,t=3,p=2"
  {
    assert Print(1) == "1" && Print(19) == "19" && Print(3) == "3" && Print(2) == "2";
    assert Print(6) == "6" && Print(65) == "65" && Print(655) == "655" && Print(6553) == "6553";
    assert Print(65536) == "65536";
  }

  lemma PrintedPrefix()
    ensures "$argon2id$" + "v=19" + "$" + "m=65536,t=3,p=2" + "$" == "$argon2id$v=19$m=65536,t=3,p=2$"
  {
  }

  /** What parses at all has six parts: nothing, the name, "v=", "m=", and two that decode. */
  lemma ParsedShape(encoded: string)
    requires Parse(encoded).Some?
    ensures var parts, p := Split(encoded, '$'), Parse(encoded).value;
            && |parts| == 6 && parts[1] == "argon2id" && "v=" <= parts[2] && "m=" <= parts[3]
            && Decode(parts[4]) == Some(p.salt) && Decode(parts[5]) == Some(p.hash)
    ensures Join(Split(encoded, '$'), '$') == encoded
  {
    JoinedSplit(encoded, '$');
  }

  lemma {:induction false} JoinedSplit(s: string, separator: char)
    ensures Join(Split(s, separator), separator) == s
  {
    if |s| > 0 {
      JoinedSplit(s[1..], separator);
      var rest := Split(s[1..], separator);
      if s[0] == separator {
        assert ([""] + rest)[1..] == rest;
        assert s == [s[0]] + s[1..];
      } else {
        JoinFirst(s[0], rest, separator);
        assert s == [s[0]] + s[1..];
      }
    }
  }

  lemma JoinFirst(c: char, parts: seq<string>, separator: char)
    requires |parts| > 0
    ensures Join([[c] + parts[0]] + parts[1..], separator) == [c] + Join(parts, separator)
  {
    var all := [[c] + parts[0]] + parts[1..];
    assert all[1..] == parts[1..];
    if |parts| > 1 {
      assert [c] + parts[0] + [separator] + Join(parts[1..], separator)
          == [c] + (parts[0] + [separator] + Join(parts[1..], separator));
    }
  }
}
