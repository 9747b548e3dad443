/** Usernames: internal/auth/username.go. A text is its runes; every rune the loop keeps is one byte. */
module Username {
  import opened Wrappers
  import opened Decimal

  const MAX_LENGTH := 24

  predicate Kept(r: char) {
    'a' <= r <= 'z' || 'A' <= r <= 'Z' || '0' <= r <= '9' || r == '_'
  }

  predicate Edge(c: char) {
    c == '-' || c == '_'
  }

  predicate ValidChars(s: string) {
    forall i | 0 <= i < |s| ::
      'a' <= s[i] <= 'z' || 'A' <= s[i] <= 'Z' || '0' <= s[i] <= '9' || s[i] == '-' || s[i] == '_'
  }

  predicate NoDoubleDash(s: string) {
    forall i | 0 <= i < |s| - 1 :: !(s[i] == '-' && s[i + 1] == '-')
  }

  predicate NoEdges(s: string) {
    s != [] ==> s[0] != '-' && s[0] != '_' && s[|s| - 1] != '-' && s[|s| - 1] != '_'
  }

  /** What sanitizing leaves: kept characters and lone inner dashes, within the length. */
  predicate Clean(s: string) {
    ValidChars(s) && NoDoubleDash(s) && NoEdges(s) && |s| <= MAX_LENGTH
  }

  /** ValidateUsername. */
  predicate ValidUsername(s: string) {
    3 <= |s| <= 30 && ValidChars(s)
  }

  /** The builder after the runes: a run of others becomes one dash, none at the start. */
  function Built(s: string): string {
    if s == [] then []
    else
      var out := Built(s[..|s| - 1]);
      var r := s[|s| - 1];
      if Kept(r) then out + [r]
      else if out != [] && out[|out| - 1] != '-' then out + ['-']
      else out
  }

  function TrimLeft(s: string): (t: string)
    ensures t == [] || !Edge(t[0])
    ensures |t| <= |s| && t == s[|s| - |t|..]
  {
    if s != [] && Edge(s[0]) then TrimLeft(s[1..]) else s
  }

  function TrimRight(s: string): (t: string)
    ensures t == [] || !Edge(t[|t| - 1])
    ensures |t| <= |s| && t == s[..|t|]
  {
    if s != [] && Edge(s[|s| - 1]) then TrimRight(s[..|s| - 1]) else s
  }

  /** strings.Trim on dashes and underscores. */
  function Trim(s: string): string {
    TrimRight(TrimLeft(s))
  }

  function Sanitized(s: string): string {
    var out := Trim(Built(s));
    if |out| > MAX_LENGTH then Trim(out[..MAX_LENGTH]) else out
  }

  /** SanitizeUsername. */
  method SanitizeUsername(s: string) returns (out: string)
    ensures out == Sanitized(s)
  {
    var b := "";
    var prevDash := false;
    for i := 0 to |s|
      invariant b == Built(s[..i])
      invariant b != [] ==> (prevDash <==> b[|b| - 1] == '-')
    {
      assert s[..i + 1][..i] == s[..i];
      var r := s[i];
      if Kept(r) {
        b := b + [r];
        prevDash := false;
        continue;
      }
      if |b| > 0 && !prevDash {
        b := b + ['-'];
        prevDash := true;
      }
    }
    assert s[..|s|] == s;
    out := Trim(b);
    if |out| > MAX_LENGTH {
      out := Trim(out[..MAX_LENGTH]);
    }
  }

  lemma {:induction false} BuiltOk(s: string)
    ensures ValidChars(Built(s)) && NoDoubleDash(Built(s))
  {
    if s != [] {
      BuiltOk(s[..|s| - 1]);
    }
  }

  lemma SliceOk(s: string, from: nat, to: nat)
    requires ValidChars(s) && NoDoubleDash(s) && from <= to <= |s|
    ensures ValidChars(s[from..to]) && NoDoubleDash(s[from..to])
  {
    var t := s[from..to];
    forall i | 0 <= i < |t| ensures t[i] == s[from + i] {
    }
  }

  lemma TrimOk(s: string)
    requires ValidChars(s) && NoDoubleDash(s)
    ensures ValidChars(Trim(s)) && NoDoubleDash(Trim(s)) && NoEdges(Trim(s)) && |Trim(s)| <= |s|
  {
    hide ValidChars, NoDoubleDash, TrimLeft, TrimRight;
    var left := TrimLeft(s);
    SliceOk(s, |s| - |left|, |s|);
    assert s[|s| - |left|..|s|] == left;
    var both := TrimRight(left);
    SliceOk(left, 0, |both|);
    assert left[0..|both|] == both;
    assert both != [] ==> both[0] == left[0];
  }

  /** The sanitized text has no doubled dash, no dash or underscore at either end, and fits. */
  lemma SanitizedIsClean(s: string)
    ensures Clean(Sanitized(s))
  {
    hide ValidChars, NoDoubleDash, NoEdges, Built, Trim;
    BuiltOk(s);
    TrimOk(Built(s));
    var out := Trim(Built(s));
    if |out| > MAX_LENGTH {
      SliceOk(out, 0, MAX_LENGTH);
      assert out[0..MAX_LENGTH] == out[..MAX_LENGTH];
      TrimOk(out[..MAX_LENGTH]);
    }
  }

  lemma {:induction false} BuiltKeeps(s: string, n: nat)
    requires n <= |s| && ValidChars(s) && NoDoubleDash(s) && (s != [] ==> s[0] != '-')
    ensures Built(s[..n]) == s[..n]
    decreases n
  {
    if n > 0 {
      BuiltKeeps(s, n - 1);
      assert s[..n][..n - 1] == s[..n - 1];
      assert n >= 2 && s[n - 1] == '-' ==> s[n - 2] != '-';
    }
  }

  /** Sanitizing changes exactly the texts that are not clean already, so twice is once. */
  lemma SanitizedFixed(s: string)
    ensures Sanitized(s) == s <==> Clean(s)
    ensures Sanitized(Sanitized(s)) == Sanitized(s)
  {
    SanitizedIsClean(s);
    if Clean(s) {
      CleanFixed(s);
    }
    CleanFixed(Sanitized(s));
  }

  lemma CleanFixed(s: string)
    requires Clean(s)
    ensures Sanitized(s) == s
  {
    BuiltKeeps(s, |s|);
    assert s[..|s|] == s;
  }

  function LowerChar(c: char): char {
    if 'A' <= c <= 'Z' then c - 'A' + 'a' else c
  }

  function ToLower(s: string): (t: string)
    ensures |t| == |s|
  {
    if s == [] then [] else [LowerChar(s[0])] + ToLower(s[1..])
  }

  function LocalPart(email: string): string {
    if email == [] || email[0] == '@' then [] else [email[0]] + LocalPart(email[1..])
  }

  /** EnsureUsername; SecureFiveDigits gives `suffix`. */
  function EnsureUsername(username: string, email: string, suffix: nat): string {
    if username != [] then username
    else
      ToLower(Base(Sanitized(LocalPart(email)))) + "-" + Numeral(suffix)
  }

  function Base(local: string): string {
    if local == [] then "user" else local
  }

  lemma NumeralLength(n: nat)
    ensures |Numeral(n)| == if n < 10 then 1 else |Numeral(n / 10)| + 1
  {
  }

  lemma FiveDigits(n: nat)
    requires 10000 <= n < 100000
    ensures |Numeral(n)| == 5
  {
    hide Numeral;
    var tens := n / 10;
    var hundreds := tens / 10;
    var thousands := hundreds / 10;
    NumeralLength(n);
    NumeralLength(tens);
    NumeralLength(hundreds);
    NumeralLength(thousands);
    NumeralLength(thousands / 10);
  }

  lemma LowerCharValid(c: char)
    requires Kept(c) || c == '-'
    ensures Kept(LowerChar(c)) || LowerChar(c) == '-'
  {
  }

  lemma {:induction false} ToLowerValid(s: string)
    requires ValidChars(s)
    ensures ValidChars(ToLower(s))
  {
    if s != [] {
      LowerCharValid(s[0]);
      ToLowerValid(s[1..]);
      hide LowerChar, Kept;
    }
  }

  lemma JoinedValid(a: string, b: string)
    requires ValidChars(a) && ValidChars(b)
    ensures ValidChars(a + "-" + b)
  {
    hide Kept;
  }

  /** Whatever the address, a generated username is valid; its length is the kept part's, a dash
      and five digits, which is the limit of thirty exactly when the kept part is twenty-four. */
  lemma GeneratedIsValid(email: string, suffix: nat)
    requires 10000 <= suffix < 100000
    ensures var name := EnsureUsername("", email, suffix);
      && ValidUsername(name) && 7 <= |name| <= 30
      && forall i | 0 <= i < |name| ::
           'a' <= name[i] <= 'z' || 'A' <= name[i] <= 'Z' || '0' <= name[i] <= '9' || name[i] == '-' || name[i] == '_'
    ensures |EnsureUsername("", email, suffix)| == 30 <==> |Sanitized(LocalPart(email))| == MAX_LENGTH
  {
    hide Sanitized, NoDoubleDash, NoEdges, ValidChars, Numeral, LocalPart, ToLower;
    SanitizedIsClean(LocalPart(email));
    FiveDigits(suffix);
    DigitsValid(suffix);
    var local := Sanitized(LocalPart(email));
    BaseOk(local);
    ToLowerValid(Base(local));
    JoinedValid(ToLower(Base(local)), Numeral(suffix));
    CharsOf(EnsureUsername("", email, suffix));
  }

  lemma CharsOf(s: string)
    requires ValidChars(s)
    ensures forall i | 0 <= i < |s| ::
      'a' <= s[i] <= 'z' || 'A' <= s[i] <= 'Z' || '0' <= s[i] <= '9' || s[i] == '-' || s[i] == '_'
  {
  }

  lemma DigitsValid(n: nat)
    ensures ValidChars(Numeral(n))
  {
  }

  lemma BaseOk(local: string)
    requires Clean(local)
    ensures ValidChars(Base(local)) && 1 <= |Base(local)| <= MAX_LENGTH
    ensures |Base(local)| == MAX_LENGTH <==> |local| == MAX_LENGTH
  {
  }

  /** The bound is met: by every address whose local part is a clean text of twenty-four. */
  lemma ThirtyReached(local: string, domain: string, suffix: nat)
    requires Clean(local) && |local| == MAX_LENGTH && 10000 <= suffix < 100000
    ensures |EnsureUsername("", local + "@" + domain, suffix)| == 30
  {
    assert local + "@" + domain == local + ("@" + domain);
    LocalUntilAt(local, "@" + domain);
    CleanFixed(local);
    GeneratedIsValid(local + "@" + domain, suffix);
  }

  lemma {:induction false} LocalUntilAt(local: string, rest: string)
    requires rest != [] && rest[0] == '@' && forall i | 0 <= i < |local| :: local[i] != '@'
    ensures LocalPart(local + rest) == local
  {
    if local == [] {
      assert local + rest == rest;
    } else {
      assert (local + rest)[1..] == local[1..] + rest;
      LocalUntilAt(local[1..], rest);
    }
  }

  // The case of letters

  predicate Upper(c: char) {
    'A' <= c <= 'Z'
  }

  /** The same text but for the case of its letters. */
  predicate SameLetters(a: string, b: string) {
    |a| == |b| && forall i | 0 <= i < |a| ::
      || a[i] == b[i]
      || (Upper(a[i]) && b[i] as int == a[i] as int + 32)
      || (Upper(b[i]) && a[i] as int == b[i] as int + 32)
  }

  lemma {:induction false} ToLowerIs(s: string)
    ensures SameLetters(s, ToLower(s)) && forall i | 0 <= i < |s| :: !Upper(ToLower(s)[i])
  {
    if s != [] {
      ToLowerIs(s[1..]);
    }
  }

  lemma DigitsLower(n: nat)
    ensures forall i | 0 <= i < |Numeral(n)| :: !Upper(Numeral(n)[i])
  {
  }

  /** A username asked for is taken as it is. A generated one is what the address leaves, or "user" if it
      leaves nothing, in lower case, and the digits behind a dash. */
  lemma GeneratedIsLower(asked: string, email: string, suffix: nat)
    ensures asked != "" ==> EnsureUsername(asked, email, suffix) == asked
    ensures var kept := Sanitized(LocalPart(email));
      var stem := if kept == "" then "user" else kept;
      var name := EnsureUsername("", email, suffix);
      && |name| == |stem| + 1 + |Numeral(suffix)|
      && SameLetters(name[..|stem|], stem) && name[|stem|..] == "-" + Numeral(suffix)
      && forall i | 0 <= i < |name| :: !Upper(name[i])
  {
    hide Sanitized, LocalPart, Numeral, ToLower;
    ToLowerIs(Base(Sanitized(LocalPart(email))));
    DigitsLower(suffix);
  }

}
