/** The placeholder rewriter of internal/email/template_service.go, and a reading of the texts it
    produces by the text renderer. */
module Template {
  import opened Wrappers

  // The placeholder pattern

  predicate Space(c: char) {
    c == ' ' || c == '\t' || c == '\n' || c == '\r' || c == '\U{000C}'
  }

  predicate Lower(c: char) {
    'a' <= c <= 'z'
  }

  predicate NameChar(c: char) {
    Lower(c) || '0' <= c <= '9' || c == '_'
  }

  /** A match of the pattern: two braces, spaces, a name, spaces, two braces. */
  datatype Match = Match(start: nat, nameStart: nat, nameEnd: nat, end: nat)

  ghost predicate Placeholder(s: string, m: Match) {
    && m.start + 2 <= m.nameStart < m.nameEnd <= m.end - 2 && m.end <= |s|
    && s[m.start] == s[m.start + 1] == '{'
    && (forall k | m.start + 2 <= k < m.nameStart || m.nameEnd <= k < m.end - 2 ::
          s[k] == ' ' || s[k] == '\t' || s[k] == '\n' || s[k] == '\r' || s[k] == '\U{000C}')
    && 'a' <= s[m.nameStart] <= 'z'
    && (forall k | m.nameStart <= k < m.nameEnd :: 'a' <= s[k] <= 'z' || '0' <= s[k] <= '9' || s[k] == '_')
    && s[m.end - 2] == s[m.end - 1] == '}'
  }

  function SkipSpaces(s: string, from: nat): (to: nat)
    requires from <= |s|
    ensures from <= to <= |s| && (forall k | from <= k < to :: Space(s[k])) && (to < |s| ==> !Space(s[to]))
    decreases |s| - from
  {
    if from < |s| && Space(s[from]) then SkipSpaces(s, from + 1) else from
  }

  function SkipName(s: string, from: nat): (to: nat)
    requires from <= |s|
    ensures from <= to <= |s| && (forall k | from <= k < to :: NameChar(s[k])) && (to < |s| ==> !NameChar(s[to]))
    decreases |s| - from
  {
    if from < |s| && NameChar(s[from]) then SkipName(s, from + 1) else from
  }

  /** The match that starts at a position, if there is one. */
  function MatchAt(s: string, p: nat): (m: Option<Match>)
    ensures m.Some? ==> Placeholder(s, m.value) && m.value.start == p
  {
    if p + 2 > |s| || s[p] != '{' || s[p + 1] != '{' then None
    else
      var nameStart := SkipSpaces(s, p + 2);
      var nameEnd := SkipName(s, nameStart);
      var close := SkipSpaces(s, nameEnd);
      if nameStart < nameEnd && Lower(s[nameStart]) && close + 2 <= |s| && s[close] == '}' && s[close + 1] == '}'
      then Some(Match(p, nameStart, nameEnd, close + 2))
      else None
  }

  lemma {:induction false} SkipSpacesTo(s: string, from: nat, to: nat)
    requires from <= to < |s| && (forall k | from <= k < to :: Space(s[k])) && !Space(s[to])
    ensures SkipSpaces(s, from) == to
    decreases |s| - from
  {
    if from < to {
      SkipSpacesTo(s, from + 1, to);
    }
  }

  lemma {:induction false} SkipNameTo(s: string, from: nat, to: nat)
    requires from <= to < |s| && (forall k | from <= k < to :: NameChar(s[k])) && !NameChar(s[to])
    ensures SkipName(s, from) == to
    decreases |s| - from
  {
    if from < to {
      SkipNameTo(s, from + 1, to);
    }
  }

  lemma Classes(s: string, m: Match)
    requires Placeholder(s, m)
    ensures m.start + 2 <= m.nameStart < m.nameEnd <= m.end - 2 && m.end <= |s|
    ensures s[m.start] == s[m.start + 1] == '{' && s[m.end - 2] == s[m.end - 1] == '}'
    ensures forall k | m.start + 2 <= k < m.nameStart || m.nameEnd <= k < m.end - 2 :: Space(s[k])
    ensures Lower(s[m.nameStart]) && forall k | m.nameStart <= k < m.nameEnd :: NameChar(s[k])
    ensures !Space(s[m.nameStart]) && !NameChar(s[m.nameEnd]) && !Space(s[m.end - 2])
  {
  }

  lemma MatchAtIs(s: string, m: Match)
    requires m.start + 2 <= m.nameStart < m.nameEnd <= m.end - 2 && m.end <= |s| && Lower(s[m.nameStart])
    requires s[m.start] == s[m.start + 1] == '{' && s[m.end - 2] == s[m.end - 1] == '}'
    requires SkipSpaces(s, m.start + 2) == m.nameStart && SkipName(s, m.nameStart) == m.nameEnd
    requires SkipSpaces(s, m.nameEnd) == m.end - 2
    ensures MatchAt(s, m.start) == Some(m)
  {
    hide Placeholder, SkipSpaces, SkipName, Space, NameChar, Lower;
  }

  /** No position has two matches. */
  lemma MatchAtOnly(s: string, m: Match)
    requires Placeholder(s, m)
    ensures MatchAt(s, m.start) == Some(m)
  {
    hide Placeholder, MatchAt, SkipSpaces, SkipName, Space, NameChar, Lower;
    Classes(s, m);
    SkipSpacesTo(s, m.start + 2, m.nameStart);
    SkipNameTo(s, m.nameStart, m.nameEnd);
    SkipSpacesTo(s, m.nameEnd, m.end - 2);
    MatchAtIs(s, m);
  }

  /** The leftmost matches from a position on, without overlaps. */
  ghost predicate Leftmost(s: string, from: nat, matches: seq<Match>)
    decreases |matches|
  {
    if matches == [] then forall p | from <= p < |s| :: MatchAt(s, p).None?
    else
      var m := matches[0];
      && from <= m.start && MatchAt(s, m.start) == Some(m)
      && (forall p | from <= p < m.start :: MatchAt(s, p).None?)
      && Leftmost(s, m.end, matches[1..])
  }

  lemma {:induction false} LeftmostOnly(s: string, from: nat, ms: seq<Match>, ns: seq<Match>)
    requires Leftmost(s, from, ms) && Leftmost(s, from, ns)
    ensures ms == ns
    decreases |ms|
  {
    if ms != [] && ns != [] {
      assert ms[0] == ns[0];
      LeftmostOnly(s, ms[0].end, ms[1..], ns[1..]);
    }
  }

  function FindFrom(s: string, from: nat): seq<Match>
    decreases |s| - from
  {
    if from >= |s| then []
    else if MatchAt(s, from).Some? then [MatchAt(s, from).value] + FindFrom(s, MatchAt(s, from).value.end)
    else FindFrom(s, from + 1)
  }

  lemma LeftmostFound(s: string, from: nat, m: Match, rest: seq<Match>)
    requires MatchAt(s, from) == Some(m) && Leftmost(s, m.end, rest)
    ensures Leftmost(s, from, [m] + rest)
  {
    assert ([m] + rest)[1..] == rest;
  }

  lemma LeftmostSkipped(s: string, from: nat, matches: seq<Match>)
    requires MatchAt(s, from).None? && Leftmost(s, from + 1, matches)
    ensures Leftmost(s, from, matches)
  {
  }

  /** FindAllStringSubmatchIndex: exactly the leftmost matches. */
  lemma {:induction false} FindFromLeftmost(s: string, from: nat)
    ensures Leftmost(s, from, FindFrom(s, from))
    decreases |s| - from
  {
    hide MatchAt;
    if from < |s| {
      hide Leftmost;
      if MatchAt(s, from).Some? {
        var m := MatchAt(s, from).value;
        FindFromLeftmost(s, m.end);
        LeftmostFound(s, from, m, FindFrom(s, m.end));
      } else {
        FindFromLeftmost(s, from + 1);
        LeftmostSkipped(s, from, FindFrom(s, from + 1));
      }
    }
  }

  // Literals

  predicate PairAt(s: string, c: char, k: int) {
    0 <= k && k + 2 <= |s| && s[k] == s[k + 1] == c
  }

  function IndexPairFrom(s: string, c: char, from: nat): (at: int)
    ensures at == -1 || (from <= at && PairAt(s, c, at))
    ensures forall k | from <= k && (at == -1 || k < at) :: !PairAt(s, c, k)
    decreases |s| - from
  {
    if from + 2 > |s| then -1 else if PairAt(s, c, from) then from else IndexPairFrom(s, c, from + 1)
  }

  /** First position of a doubled character; -1 if there is none. */
  function IndexPair(s: string, c: char): (at: int)
    ensures at == -1 || PairAt(s, c, at)
    ensures forall k | 0 <= k && (at == -1 || k < at) :: !PairAt(s, c, k)
  {
    IndexPairFrom(s, c, 0)
  }

  predicate HasDelimiter(s: string) {
    IndexPair(s, '{') != -1 || IndexPair(s, '}') != -1
  }

  predicate DelimiterAt(s: string, k: int) {
    PairAt(s, '{', k) || PairAt(s, '}', k)
  }

  /** malformedDelimiterOffset. */
  function MalformedOffset(s: string): (offset: int)
    requires HasDelimiter(s)
    ensures DelimiterAt(s, offset) && forall k | 0 <= k < offset :: !DelimiterAt(s, k)
  {
    var opening, closing := IndexPair(s, '{'), IndexPair(s, '}');
    if opening < 0 then closing
    else if closing < 0 then opening
    else if opening < closing then opening
    else closing
  }

  // Rewriting

  datatype Error =
    | EmptyPart
    | Malformed(offset: int)
    | UnknownVariable(offset: int)
    | MissingPlaceholder(variable: string)

  const OPEN := "{{index . \""
  const CLOSE := "\"}}"

  function Name(s: string, m: Match): string
    requires Placeholder(s, m)
  {
    s[m.nameStart..m.nameEnd]
  }

  /** Matches in order, as the pattern finds them, from a position on. */
  ghost predicate Chain(s: string, from: nat, matches: seq<Match>)
    decreases |matches|
  {
    from <= |s| &&
    (matches == [] || (from <= matches[0].start && Placeholder(s, matches[0]) &&
                       Chain(s, matches[0].end, matches[1..])))
  }

  lemma {:induction false} LeftmostChain(s: string, from: nat, matches: seq<Match>)
    requires from <= |s| && Leftmost(s, from, matches)
    ensures Chain(s, from, matches)
    decreases |matches|
  {
    if matches != [] {
      LeftmostChain(s, matches[0].end, matches[1..]);
    }
  }

  predicate Blank(s: string) {
    forall k | 0 <= k < |s| :: Space(s[k]) || s[k] == '\U{000B}'
  }

  /** The first thing wrong with a literal or a name, in source order. */
  ghost function FirstError(s: string, from: nat, matches: seq<Match>, allowed: set<string>)
    : (e: Option<Error>)
    requires Chain(s, from, matches)
    ensures e.Some? ==> e.value != EmptyPart
    decreases |matches|
  {
    if matches == [] then
      if HasDelimiter(s[from..]) then Some(Malformed(from + MalformedOffset(s[from..]))) else None
    else
      var m := matches[0];
      if HasDelimiter(s[from..m.start]) then Some(Malformed(from + MalformedOffset(s[from..m.start])))
      else if Name(s, m) !in allowed then Some(UnknownVariable(m.start))
      else FirstError(s, m.end, matches[1..], allowed)
  }

  ghost function Rewritten(s: string, from: nat, matches: seq<Match>): string
    requires Chain(s, from, matches)
    decreases |matches|
  {
    if matches == [] then s[from..]
    else
      var m := matches[0];
      s[from..m.start] + OPEN + Name(s, m) + CLOSE + Rewritten(s, m.end, matches[1..])
  }

  ghost function Names(s: string, from: nat, matches: seq<Match>): set<string>
    requires Chain(s, from, matches)
    decreases |matches|
  {
    if matches == [] then {} else {Name(s, matches[0])} + Names(s, matches[0].end, matches[1..])
  }

  ghost function FirstMissing(required: seq<string>, used: set<string>): (e: Option<Error>)
    ensures e.Some? ==> e.value.MissingPlaceholder?
  {
    if required == [] then None
    else if required[0] !in used then Some(MissingPlaceholder(required[0]))
    else FirstMissing(required[1..], used)
  }

  lemma FoundChain(s: string)
    ensures Chain(s, 0, FindFrom(s, 0))
  {
    FindFromLeftmost(s, 0);
    LeftmostChain(s, 0, FindFrom(s, 0));
  }

  ghost function Prepared(s: string, allowed: set<string>, required: seq<string>): Result<string, Error> {
    FoundChain(s);
    var matches := FindFrom(s, 0);
    if Blank(s) then Err(EmptyPart)
    else if FirstError(s, 0, matches, allowed).Some? then Err(FirstError(s, 0, matches, allowed).value)
    else if FirstMissing(required, Names(s, 0, matches)).Some?
    then Err(FirstMissing(required, Names(s, 0, matches)).value)
    else Ok(Rewritten(s, 0, matches))
  }

  /** One match handled: what the loop of prepareTemplatePart relies on. */
  lemma ChainNext(s: string, from: nat, matches: seq<Match>, allowed: set<string>)
    requires Chain(s, from, matches) && matches != []
    ensures var m := matches[0];
      && from <= m.start <= m.nameStart <= m.nameEnd <= m.end <= |s| && Chain(s, m.end, matches[1..])
      && Name(s, m) == s[m.nameStart..m.nameEnd]
      && FirstError(s, from, matches, allowed) ==
         (if HasDelimiter(s[from..m.start]) then Some(Malformed(from + MalformedOffset(s[from..m.start])))
          else if Name(s, m) !in allowed then Some(UnknownVariable(m.start))
          else FirstError(s, m.end, matches[1..], allowed))
      && Names(s, from, matches) == {Name(s, m)} + Names(s, m.end, matches[1..])
      && Rewritten(s, from, matches) ==
         s[from..m.start] + OPEN + Name(s, m) + CLOSE + Rewritten(s, m.end, matches[1..])
  {
  }

  lemma ChainEnd(s: string, from: nat, allowed: set<string>)
    requires from <= |s|
    ensures Chain(s, from, []) && Names(s, from, []) == {} && Rewritten(s, from, []) == s[from..]
    ensures FirstError(s, from, [], allowed) ==
      if HasDelimiter(s[from..]) then Some(Malformed(from + MalformedOffset(s[from..]))) else None
  {
  }

  method CheckRequired(required: seq<string>, used: set<string>) returns (error: Option<Error>)
    ensures error == FirstMissing(required, used)
  {
    for n := 0 to |required|
      invariant FirstMissing(required, used) == FirstMissing(required[n..], used)
    {
      assert required[n..][1..] == required[n + 1..];
      if required[n] !in used {
        return Some(MissingPlaceholder(required[n]));
      }
    }
    return None;
  }

  /** prepareTemplatePart. */
  method Prepare(s: string, allowed: set<string>, required: seq<string>) returns (result: Result<string, Error>)
    ensures result == Prepared(s, allowed, required)
  {
    hide Placeholder, Space, Blank, HasDelimiter, DelimiterAt, FindFrom, Chain, Rewritten, Names, FirstError;
    hide IndexPair, MalformedOffset, FirstMissing;
    FoundChain(s);
    if Blank(s) {
      return Err(EmptyPart);
    }
    var matches := FindFrom(s, 0);
    var used: set<string> := {};
    var out := "";
    var last: nat := 0;
    ghost var rest := matches;
    for n := 0 to |matches|
      invariant last <= |s| && rest == matches[n..] && Chain(s, last, rest)
      invariant FirstError(s, 0, matches, allowed) == FirstError(s, last, rest, allowed)
      invariant Names(s, 0, matches) == used + Names(s, last, rest)
      invariant Rewritten(s, 0, matches) == out + Rewritten(s, last, rest)
    {
      var m := matches[n];
      assert rest[0] == m && rest[1..] == matches[n + 1..];
      ChainNext(s, last, rest, allowed);
      var literal := s[last..m.start];
      if HasDelimiter(literal) {
        return Err(Malformed(last + MalformedOffset(literal)));
      }
      var variable := s[m.nameStart..m.nameEnd];
      if variable !in allowed {
        return Err(UnknownVariable(m.start));
      }
      used := used + {variable};
      out := out + literal + OPEN + variable + CLOSE;
      last := m.end;
      rest := rest[1..];
    }
    ChainEnd(s, last, allowed);
    var literal := s[last..];
    if HasDelimiter(literal) {
      return Err(Malformed(last + MalformedOffset(literal)));
    }
    out := out + literal;
    var missing := CheckRequired(required, used);
    if missing.Some? {
      return Err(missing.value);
    }
    return Ok(out);
  }
}
