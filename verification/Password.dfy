/** Password hashes: internal/auth/password.go. */
module Password {
  import opened Wrappers
  import opened Decimal
  import opened Base64

  const ALGORITHM := "argon2id"
  const TIME: nat := 3
  const MEMORY: nat := 64 * 1024
  const THREADS: nat := 4
  const KEY_LENGTH: nat := 32
  const SALT_LENGTH: nat := 16

  datatype Parameters = Parameters(time: nat, memory: nat, threads: nat)

  datatype Hashed = Hashed(parameters: Parameters, salt: seq<byte>, hash: seq<byte>)

  datatype Error =
    | InvalidFormat | UnsupportedAlgorithm | UnsupportedVersion | InvalidParameter | InvalidBase64
    | TimeOutOfRange | MemoryOutOfRange | ThreadsOutOfRange | SaltOutOfRange | HashOutOfRange

  /** A field of the format and what follows it. */
  function Field(text: string, rest: string): string {
    text + "$" + rest
  }

  /** A parameter behind its letter. */
  function Printed(prefix: char, n: nat): string {
    [prefix, '='] + Numeral(n)
  }

  function EncodeHash(h: Hashed): string {
    Field("", Field(ALGORITHM, Field("v=1", Fields(h))))
  }

  function Fields(h: Hashed): string {
    Field(Printed('t', h.parameters.time),
    Field(Printed('m', h.parameters.memory),
    Field(Printed('p', h.parameters.threads),
    Field(Encode(h.salt), Encode(h.hash)))))
  }

  /** strings.Split on a dollar sign. */
  function Split(s: string): (parts: seq<string>)
    ensures |parts| > 0
  {
    if s == [] then [[]]
    else
      var rest := Split(s[1..]);
      if s[0] == '$' then [[]] + rest else [[s[0]] + rest[0]] + rest[1..]
  }

  /** strconv.ParseUint in base 10 with 32 bits, behind a letter and an equals sign. */
  function ParseUint(s: string, prefix: char): Option<nat> {
    if |s| >= 2 && s[0] == prefix && s[1] == '=' && IsNumeral(s[2..]) && Value(s[2..]) < 0x1_0000_0000
    then Some(Value(s[2..]))
    else None
  }

  function DecodeHash(encoded: string): Result<Hashed, Error> {
    var parts := Split(encoded);
    if |parts| != 8 then Err(InvalidFormat)
    else if parts[1] != ALGORITHM then Err(UnsupportedAlgorithm)
    else if parts[2] != "v=1" then Err(UnsupportedVersion)
    else
      var time, memory, threads := ParseUint(parts[3], 't'), ParseUint(parts[4], 'm'), ParseUint(parts[5], 'p');
      if time.None? || memory.None? || threads.None? then Err(InvalidParameter)
      else
        var salt, hash := Decode(parts[6]), Decode(parts[7]);
        if salt.None? || hash.None? then Err(InvalidBase64)
        else InRange(Hashed(Parameters(time.value, memory.value, threads.value), salt.value, hash.value))
  }

  function InRange(h: Hashed): Result<Hashed, Error> {
    if !(1 <= h.parameters.time <= 10) then Err(TimeOutOfRange)
    else if !(8 <= h.parameters.memory <= 256 * 1024) then Err(MemoryOutOfRange)
    else if !(1 <= h.parameters.threads <= 16) then Err(ThreadsOutOfRange)
    else if !(1 <= |h.salt| <= 64) then Err(SaltOutOfRange)
    else if !(1 <= |h.hash| <= 64) then Err(HashOutOfRange)
    else Ok(h)
  }

  // The printed form splits back

  predicate Free(s: string) {
    forall i | 0 <= i < |s| :: s[i] != '$'
  }

  lemma {:induction false} SplitFirst(s: string, rest: string)
    requires Free(s)
    ensures Split(s + "$" + rest) == [s] + Split(rest)
  {
    if s == [] {
      assert s + "$" + rest == "$" + rest;
      assert ("$" + rest)[1..] == rest;
    } else {
      SplitFirst(s[1..], rest);
      assert (s + "$" + rest)[1..] == s[1..] + "$" + rest;
      assert [s[0]] + s[1..] == s;
    }
  }

  function Joined(parts: seq<string>): string {
    if parts == [] then ""
    else if |parts| == 1 then parts[0]
    else parts[0] + "$" + Joined(parts[1..])
  }

  lemma JoinedLonger(c: char, parts: seq<string>)
    requires parts != []
    ensures Joined([[c] + parts[0]] + parts[1..]) == [c] + Joined(parts)
  {
    assert ([[c] + parts[0]] + parts[1..])[1..] == parts[1..];
  }

  lemma JoinedEmpty(parts: seq<string>)
    requires parts != []
    ensures Joined([[]] + parts) == ['$'] + Joined(parts)
  {
    assert ([[]] + parts)[1..] == parts;
  }

  /** The fields have no dollar sign, and with dollar signs between them they are the text. */
  lemma {:induction false} SplitJoins(s: string)
    ensures Joined(Split(s)) == s && forall i | 0 <= i < |Split(s)| :: Free(Split(s)[i])
  {
    if s != [] {
      SplitJoins(s[1..]);
      var rest := Split(s[1..]);
      assert s == [s[0]] + s[1..];
      JoinedEmpty(rest);
      JoinedLonger(s[0], rest);
      assert forall i | 0 < i < |rest| :: Free(rest[i]);
      hide Joined;
    }
  }

  lemma {:induction false} SplitLast(s: string)
    requires Free(s)
    ensures Split(s) == [s]
  {
    if s != [] {
      SplitLast(s[1..]);
      assert [s[0]] + s[1..] == s;
    }
  }

  lemma FieldsSplit(h: Hashed)
    ensures Split(Fields(h)) ==
      [Printed('t', h.parameters.time), Printed('m', h.parameters.memory), Printed('p', h.parameters.threads),
       Encode(h.salt), Encode(h.hash)]
  {
    var time, memory := Printed('t', h.parameters.time), Printed('m', h.parameters.memory);
    var threads := Printed('p', h.parameters.threads);
    var keys := Field(Encode(h.salt), Encode(h.hash));
    assert Free(time) && Free(memory) && Free(threads) && Free(Encode(h.salt)) && Free(Encode(h.hash));
    hide Split, Free, Printed, Encode;
    SplitLast(Encode(h.hash));
    SplitFirst(Encode(h.salt), Encode(h.hash));
    SplitFirst(threads, keys);
    SplitFirst(memory, Field(threads, keys));
    SplitFirst(time, Field(memory, Field(threads, keys)));
  }

  lemma EncodedSplit(h: Hashed)
    ensures Split(EncodeHash(h)) ==
      ["", ALGORITHM, "v=1", Printed('t', h.parameters.time), Printed('m', h.parameters.memory),
       Printed('p', h.parameters.threads), Encode(h.salt), Encode(h.hash)]
  {
    FieldsSplit(h);
    assert Free("") && Free(ALGORITHM) && Free("v=1");
    hide Split, Free, Fields, Printed, Encode;
    SplitFirst("v=1", Fields(h));
    SplitFirst(ALGORITHM, Field("v=1", Fields(h)));
    SplitFirst("", Field(ALGORITHM, Field("v=1", Fields(h))));
  }

  lemma ParsePrinted(n: nat, prefix: char)
    requires n < 0x1_0000_0000
    ensures ParseUint(Printed(prefix, n), prefix) == Some(n)
  {
    assert Printed(prefix, n)[2..] == Numeral(n);
  }

  /** Any parameters, salt and hash of the types in the source come back as they were, exactly when
      they are within the accepted ranges; otherwise the first one out of range is reported. */
  lemma DecodeEncoded(h: Hashed)
    requires h.parameters.time < 0x1_0000_0000 && h.parameters.memory < 0x1_0000_0000 && h.parameters.threads < 0x100
    ensures DecodeHash(EncodeHash(h)) == InRange(h)
    ensures DecodeHash(EncodeHash(h)) == Ok(h) <==>
      && 1 <= h.parameters.time <= 10 && 8 <= h.parameters.memory <= 262144 && 1 <= h.parameters.threads <= 16
      && 1 <= |h.salt| <= 64 && 1 <= |h.hash| <= 64
  {
    EncodedSplit(h);
    ParsePrinted(h.parameters.time, 't');
    ParsePrinted(h.parameters.memory, 'm');
    ParsePrinted(h.parameters.threads, 'p');
    DecodeEncode(h.salt);
    DecodeEncode(h.hash);
    hide EncodeHash, Split, ParseUint, Printed, Encode, Decode;
  }

  /** The text puts a 32-bit number behind the letter. */
  predicate Assigns(letter: char, text: string) {
    && |text| > 2 && text[0] == letter && text[1] == '='
    && (forall i | 2 <= i < |text| :: '0' <= text[i] <= '9')
    && Value(text[2..]) < 4_294_967_296
  }

  lemma AssignsIs(text: string, letter: char)
    ensures ParseUint(text, letter).Some? <==> Assigns(letter, text)
    ensures Assigns(letter, text) ==> ParseUint(text, letter) == Some(Value(text[2..]))
  {
    if |text| >= 2 {
      forall i | 0 <= i < |text[2..]| ensures text[2..][i] == text[i + 2] {
      }
    }
  }

  /** A hash is read from its eight fields between dollar signs, and each kind of refusal is for the first field
      that is not as it should be; what is read lies within the accepted ranges. */
  lemma DecodedIs(encoded: string)
    ensures var f := Split(encoded);
      var r := DecodeHash(encoded);
      var eight := |f| == 8;
      var named := eight && f[1] == "argon2id";
      var versioned := named && f[2] == "v=1";
      var numbered := versioned && Assigns('t', f[3]) && Assigns('m', f[4]) && Assigns('p', f[5]);
      var keyed := numbered && Decode(f[6]).Some? && Decode(f[7]).Some?;
      && (r == Err(InvalidFormat) <==> !eight)
      && (r == Err(UnsupportedAlgorithm) <==> eight && !named)
      && (r == Err(UnsupportedVersion) <==> named && !versioned)
      && (r == Err(InvalidParameter) <==> versioned && !numbered)
      && (r == Err(InvalidBase64) <==> numbered && !keyed)
      && (r.Ok? <==>
            && keyed
            && 1 <= Value(f[3][2..]) <= 10 && 8 <= Value(f[4][2..]) <= 262144 && 1 <= Value(f[5][2..]) <= 16
            && 1 <= |Decode(f[6]).value| <= 64 && 1 <= |Decode(f[7]).value| <= 64)
      && (r.Ok? ==>
            r.value == Hashed(Parameters(Value(f[3][2..]), Value(f[4][2..]), Value(f[5][2..])), Decode(f[6]).value,
                              Decode(f[7]).value))
  {
    var f := Split(encoded);
    if |f| == 8 {
      AssignsIs(f[3], 't');
      AssignsIs(f[4], 'm');
      AssignsIs(f[5], 'p');
    }
    hide Split, ParseUint, Decode, Value;
  }

  // Verification

  /** The key derivation: password, salt, parameters and the length wanted. */
  type Kdf = (string, seq<byte>, Parameters, nat) -> seq<byte>

  ghost predicate KdfOk(kdf: Kdf) {
    forall password, salt, parameters, length :: |kdf(password, salt, parameters, length)| == length
  }

  datatype Verification = Verification(valid: bool, needsRehash: bool)

  function Verify(kdf: Kdf, password: string, encoded: string): Result<Verification, Error> {
    var decoded := DecodeHash(encoded);
    if decoded.Err? then Err(decoded.error)
    else
      var h := decoded.value;
      var valid := kdf(password, h.salt, h.parameters, |h.hash|) == h.hash;
      Ok(Verification(valid, valid &&
                      (h.parameters.time < TIME || h.parameters.memory < MEMORY || h.parameters.threads < THREADS ||
                                       |h.salt| < SALT_LENGTH || |h.hash| < KEY_LENGTH)))
  }

  /** hashPassword with the random salt it drew. */
  function Hash(kdf: Kdf, password: string, salt: seq<byte>): string
    requires |salt| == SALT_LENGTH
  {
    var parameters := Parameters(TIME, MEMORY, THREADS);
    EncodeHash(Hashed(parameters, salt, kdf(password, salt, parameters, KEY_LENGTH)))
  }

  /** A fresh hash accepts exactly the passwords that derive its key, its own among them, and never
      asks for a rehash. */
  lemma FreshHashVerifies(kdf: Kdf, password: string, salt: seq<byte>, attempt: string)
    requires KdfOk(kdf) && |salt| == SALT_LENGTH
    ensures Verify(kdf, password, Hash(kdf, password, salt)) == Ok(Verification(true, false))
    ensures Verify(kdf, attempt, Hash(kdf, password, salt)) ==
      Ok(Verification(kdf(attempt, salt, Parameters(TIME, MEMORY, THREADS), KEY_LENGTH) ==
                      kdf(password, salt, Parameters(TIME, MEMORY, THREADS), KEY_LENGTH), false))
  {
    var parameters := Parameters(TIME, MEMORY, THREADS);
    DecodeEncoded(Hashed(parameters, salt, kdf(password, salt, parameters, KEY_LENGTH)));
  }

  /** Any hash within the accepted ranges is accepted exactly for the passwords that derive its key, and
      an accepted one asks for a rehash exactly when one of its five measures is below today's. */
  lemma VerifyIs(kdf: Kdf, password: string, h: Hashed)
    requires 1 <= h.parameters.time <= 10 && 8 <= h.parameters.memory <= 262144 && 1 <= h.parameters.threads <= 16
    requires 1 <= |h.salt| <= 64 && 1 <= |h.hash| <= 64
    ensures var r := Verify(kdf, password, EncodeHash(h));
      && r.Ok?
      && (r.value.valid <==> kdf(password, h.salt, h.parameters, |h.hash|) == h.hash)
      && (r.value.needsRehash <==>
            && r.value.valid
            && (h.parameters.time < 3 || h.parameters.memory < 65536 || h.parameters.threads < 4 || |h.salt| < 16 ||
                |h.hash| < 32))
  {
    DecodeEncoded(h);
  }
}
